/**
 What interrupted asset handlers can break, exactly. A handler reads and decides, and later
 writes; between the two the asset may have been finalized, superseded or deleted.
 */
module AssetInterleavings {
  import opened Common
  import opened Assets

  // ---- the status law ----

  /** A late write that moves a status where no uninterrupted handler would. */
  predicate Overrides(s: State, ticket: Ticket, id: Id)
    requires id in s.assets
  {
    var status := s.assets[id].status;
    match ticket
    case MarkUpload(x) => x == id && !AcceptsUpload(status)
    case Quarantine(x) => x == id && (status == Available || status == Retired)
    case Link(x, owner, _) => x == id && owner in s.models && (status == Quarantined || status == Retired)
    case Insert(_, _) => false
    case Retire(_, _, _) => false
  }

  /** A step breaks the status law for an asset exactly when it completes such a write on it. */
  lemma OverridesExactly(w: System, step: Step, id: Id)
    requires id in w.state.assets
    ensures id in After(w, step).state.assets
    ensures !Follows(w.state.assets[id].status, After(w, step).state.assets[id].status)
       <==> step.Complete? && step.index < |w.tickets| && Overrides(w.state, w.tickets[step.index], id)
  {
    hide ObjectKeyFor, PlainId, SameContent;
  }

  // ---- the clean-up law ----

  /** An image that is an asset's key belongs to the asset's model. */
  ghost predicate ImageOwners(s: State) {
    forall m, id :: m in s.models && id in s.assets && s.models[m].image == Some(s.assets[id].key) ==> s.assets[id].owner == m
  }

  ghost predicate Known(w: System, external: External) {
    && SystemInv(w) && ImagesKnown(w.state, external) && ImageOwners(w.state)
    && forall i :: 0 <= i < |w.tickets| && w.tickets[i].Insert? ==> w.tickets[i].asset.key !in external
  }

  /** New assets do not spell the key of an outside image. */
  predicate FreshStep(step: Step, external: External) {
    && PlainStep(step)
    && (step.Begin? && step.request.Create? ==>
          ObjectKeyFor(step.request.owner, step.request.id, step.request.declared.contentType) !in external)
  }

  /** A key that is being inserted is not in use. */
  lemma InsertedKeyIsNew(s: State, id: Id, asset: Asset, external: External)
    requires KeysBuilt(s) && Sound(s, Insert(id, asset)) && id !in s.assets && asset.key !in external && ImagesKnown(s, external)
    ensures forall i :: i in s.assets ==> s.assets[i].key != asset.key
    ensures asset.key !in s.cleanup && forall m :: m in s.models ==> s.models[m].image != Some(asset.key)
  {
    hide ObjectKeyFor, PlainId;
    forall i | i in s.assets ensures s.assets[i].key != asset.key {
      var a := s.assets[i];
      if a.key == asset.key {
        KeyTellsAsset(a.owner, i, a.declared.contentType, asset.owner, id, asset.declared.contentType);
      }
    }
    assert !Owned(s, asset.key);
  }

  lemma EffectKeepsKnown(s: State, ticket: Ticket, external: External)
    requires KeysBuilt(s) && Sound(s, ticket) && ImagesKnown(s, external) && ImageOwners(s)
    requires ticket.Insert? ==> ticket.asset.key !in external
    ensures ImagesKnown(Effect(s, ticket), external) && ImageOwners(Effect(s, ticket))
  {
    match ticket
    case Insert(id, asset) => InsertKeepsKnown(s, id, asset, external);
    case Link(id, owner, key) => LinkKeepsKnown(s, id, owner, key, external);
    case Retire(_, _, _) => OtherKeepsKnown(s, ticket, external);
    case MarkUpload(_) => OtherKeepsKnown(s, ticket, external);
    case Quarantine(_) => OtherKeepsKnown(s, ticket, external);
  }

  lemma InsertKeepsKnown(s: State, id: Id, asset: Asset, external: External)
    requires KeysBuilt(s) && Sound(s, Insert(id, asset)) && asset.key !in external && ImagesKnown(s, external) && ImageOwners(s)
    ensures var t := Effect(s, Insert(id, asset)); ImagesKnown(t, external) && ImageOwners(t)
  {
    hide ObjectKeyFor, PlainId, Owned;
    if id !in s.assets {
      InsertedKeyIsNew(s, id, asset, external);
      KnownStays(s, Effect(s, Insert(id, asset)), external);
    }
  }

  lemma LinkKeepsKnown(s: State, id: Id, owner: Id, key: ObjectKey, external: External)
    requires KeysBuilt(s) && Sound(s, Link(id, owner, key)) && ImagesKnown(s, external) && ImageOwners(s)
    ensures var t := Linked(s, id, owner, key); ImagesKnown(t, external) && ImageOwners(t)
  {
    hide ObjectKeyFor, PlainId;
    if owner in s.models {
      var t := Linked(s, id, owner, key);
      assert Owned(s, key);
      forall k | k in KeysOf(s.assets, Superseded(s.assets, id, owner)) ensures Owned(s, k) {
      }
      KnownStays(s, t, external);
      LinkKeepsOwners(s, id, owner, key);
    }
  }

  lemma LinkKeepsOwners(s: State, id: Id, owner: Id, key: ObjectKey)
    requires KeysBuilt(s) && Sound(s, Link(id, owner, key)) && ImageOwners(s) && owner in s.models
    ensures ImageOwners(Linked(s, id, owner, key))
  {
    hide ObjectKeyFor, PlainId, Superseded, KeysOf;
    var t := Linked(s, id, owner, key);
    forall m, i | m in t.models && i in t.assets && t.models[m].image == Some(t.assets[i].key)
      ensures t.assets[i].owner == m
    {
      if m == owner {
        KeysDistinct(s, i, id);
      } else {
        assert s.models[m].image == Some(s.assets[i].key);
      }
    }
  }

  lemma OtherKeepsKnown(s: State, ticket: Ticket, external: External)
    requires ImagesKnown(s, external) && ImageOwners(s) && (ticket.Retire? || ticket.MarkUpload? || ticket.Quarantine?)
    ensures ImagesKnown(Effect(s, ticket), external) && ImageOwners(Effect(s, ticket))
  {
    hide Owned;
    var t := Effect(s, ticket);
    KnownStays(s, t, external);
    OtherKeepsOwners(s, ticket);
  }

  lemma OtherKeepsOwners(s: State, ticket: Ticket)
    requires ImageOwners(s) && (ticket.Retire? || ticket.MarkUpload? || ticket.Quarantine?)
    ensures ImageOwners(Effect(s, ticket))
  {
    var t := Effect(s, ticket);
    forall m, i | m in t.models && i in t.assets && t.models[m].image == Some(t.assets[i].key)
      ensures t.assets[i].owner == m
    {
      assert s.models[m].image == Some(s.assets[i].key);
    }
  }

  lemma StepKeepsKnown(w: System, step: Step, external: External)
    requires Known(w, external) && FreshStep(step, external)
    ensures Known(After(w, step), external)
  {
    hide ObjectKeyFor, PlainId, KeysBuilt, ImagesLinked, Sound, ImagesKnown, ImageOwners;
    StepKeepsLinks(w, step);
    var v := After(w, step);
    match step
    case Begin(request) => DecidesFresh(w.state, request, external);
    case Complete(i) =>
      if i < |w.tickets| {
        EffectKeepsKnown(w.state, w.tickets[i], external);
        assert forall k :: 0 <= k < |v.tickets| ==> v.tickets[k] == w.tickets[if k < i then k else k + 1];
      }
    case Abandon(i) =>
      if i < |w.tickets| {
        assert forall k :: 0 <= k < |v.tickets| ==> v.tickets[k] == w.tickets[if k < i then k else k + 1];
      }
    case Uploading(key, content) => FewerWaiting(w.state, v.state, external);
    case CleaningUp(key, deleted) => FewerWaiting(w.state, v.state, external);
  }

  lemma DecidesFresh(s: State, request: Request, external: External)
    requires request.Create? ==> ObjectKeyFor(request.owner, request.id, request.declared.contentType) !in external
    ensures var d := Decide(s, request); d.Write? && d.ticket.Insert? ==> d.ticket.asset.key !in external
  {
    hide ObjectKeyFor, SameContent;
  }

  lemma FewerWaiting(s: State, t: State, external: External)
    requires ImagesKnown(s, external) && ImageOwners(s)
    requires t.assets == s.assets && t.models == s.models && t.cleanup <= s.cleanup
    ensures ImagesKnown(t, external) && ImageOwners(t)
  {
    assert forall key :: Owned(t, key) == Owned(s, key);
  }

  /** Every interleaving keeps this. */
  lemma {:induction false} RunKeepsKnown(w: System, steps: seq<Step>, external: External)
    requires Known(w, external) && forall i :: 0 <= i < |steps| ==> FreshStep(steps[i], external)
    ensures Known(AfterAll(w, steps), external)
    decreases |steps|
  {
    hide FreshStep, Known;
    if steps != [] {
      StepKeepsKnown(w, steps[0], external);
      RunKeepsKnown(After(w, steps[0]), steps[1..], external);
    }
  }

  /** No available asset's bytes wait to be deleted. */
  ghost predicate AvailableSpared(s: State) {
    forall id :: id in s.assets && s.assets[id].status == Available ==> s.assets[id].key !in s.cleanup
  }

  /** A step puts an available asset's bytes among those waiting to be deleted exactly when it
      completes a link whose own key is waiting already. */
  lemma EndangersExactly(w: System, step: Step, external: External)
    requires Known(w, external) && AvailableSpared(w.state)
    ensures !AvailableSpared(After(w, step).state)
       <==> && step.Complete? && step.index < |w.tickets|
            && var ticket := w.tickets[step.index];
               ticket.Link? && ticket.owner in w.state.models && ticket.key in w.state.cleanup
  {
    hide ObjectKeyFor, PlainId, Owned, SameContent;
    if step.Complete? && step.index < |w.tickets| {
      var s, ticket := w.state, w.tickets[step.index];
      assert Sound(s, ticket);
      var t := Effect(s, ticket);
      match ticket
      case Link(id, owner, key) =>
        if owner in s.models {
          assert t.assets[id].status == Available && t.assets[id].key == key;
          forall i | i in t.assets && t.assets[i].status == Available && i != id ensures t.assets[i].key !in t.cleanup {
            OthersSpared(s, id, owner, key, i);
          }
          if key in t.cleanup && key !in s.cleanup {
            var j :| j in Superseded(s.assets, id, owner) && s.assets[j].key == key;
            KeysDistinct(s, j, id);
          }
        }
      case Insert(id, asset) =>
      case Retire(_, _, _) =>
      case MarkUpload(_) =>
      case Quarantine(_) =>
    }
  }

  lemma OthersSpared(s: State, id: Id, owner: Id, key: ObjectKey, i: Id)
    requires KeysBuilt(s) && ImageOwners(s) && AvailableSpared(s) && Sound(s, Link(id, owner, key)) && owner in s.models
    requires var t := Linked(s, id, owner, key); i in t.assets && t.assets[i].status == Available && i != id
    ensures s.assets[i].key !in Linked(s, id, owner, key).cleanup
  {
    hide ObjectKeyFor, PlainId;
    var k := s.assets[i].key;
    assert i !in Superseded(s.assets, id, owner);
    if k in KeysOf(s.assets, Superseded(s.assets, id, owner)) {
      var j :| j in Superseded(s.assets, id, owner) && s.assets[j].key == k;
      KeysDistinct(s, i, j);
    }
  }

  /** A completing write after which an asset that is not retired has its key waiting. */
  ghost predicate Unretires(s: State, ticket: Ticket) {
    match ticket
    case MarkUpload(id) => id in s.assets && s.assets[id].key in s.cleanup
    case Quarantine(id) => id in s.assets && s.assets[id].key in s.cleanup
    case Link(id, owner, key) => owner in s.models && (key in s.cleanup || StaleImage(s, owner, key))
    case Insert(_, _) => false
    case Retire(_, _, _) => false
  }

  /** The model shows another asset that is neither available nor retired any more. */
  ghost predicate StaleImage(s: State, owner: Id, key: ObjectKey)
    requires owner in s.models
  {
    exists j :: j in s.assets && s.assets[j].key != key && s.models[owner].image == Some(s.assets[j].key)
                && s.assets[j].status != Available && s.assets[j].status != Retired
  }

  /** A step breaks the clean-up law exactly when it completes such a write. */
  lemma UnretiresExactly(w: System, step: Step, external: External)
    requires Known(w, external) && CleanupRetired(w.state)
    ensures !CleanupRetired(After(w, step).state)
       <==> step.Complete? && step.index < |w.tickets| && Unretires(w.state, w.tickets[step.index])
  {
    hide ObjectKeyFor, PlainId, Owned, SameContent, Unretires;
    if step.Complete? && step.index < |w.tickets| {
      EffectUnretires(w.state, w.tickets[step.index], external);
    }
  }

  lemma EffectUnretires(s: State, ticket: Ticket, external: External)
    requires KeysBuilt(s) && ImagesKnown(s, external) && ImageOwners(s) && CleanupRetired(s) && Sound(s, ticket)
    requires ticket.Insert? ==> ticket.asset.key !in external
    ensures !CleanupRetired(Effect(s, ticket)) <==> Unretires(s, ticket)
  {
    hide ObjectKeyFor, PlainId, Owned;
    match ticket
    case Insert(id, asset) =>
      if id !in s.assets { InsertedKeyIsNew(s, id, asset, external); }
    case Link(id, owner, key) =>
      if owner in s.models { LinkUnretires(s, id, owner, key); }
    case MarkUpload(id) => RestatusUnretires(s, ticket, id);
    case Quarantine(id) => RestatusUnretires(s, ticket, id);
    case Retire(id, _, _) =>
  }

  lemma RestatusUnretires(s: State, ticket: Ticket, id: Id)
    requires KeysBuilt(s) && CleanupRetired(s) && (ticket == MarkUpload(id) || ticket == Quarantine(id))
    ensures !CleanupRetired(Effect(s, ticket)) <==> Unretires(s, ticket)
  {
    hide ObjectKeyFor, PlainId;
    if id in s.assets {
      var t := Effect(s, ticket);
      assert t.assets[id].key == s.assets[id].key && t.assets[id].status != Retired;
    }
  }

  lemma LinkUnretires(s: State, id: Id, owner: Id, key: ObjectKey)
    requires KeysBuilt(s) && ImageOwners(s) && CleanupRetired(s) && Sound(s, Link(id, owner, key)) && owner in s.models
    ensures !CleanupRetired(Linked(s, id, owner, key)) <==> key in s.cleanup || StaleImage(s, owner, key)
  {
    hide ObjectKeyFor, PlainId;
    var t := Linked(s, id, owner, key);
    assert t.assets[id].key == key && t.assets[id].status == Available;
    if StaleImage(s, owner, key) {
      var j :| j in s.assets && s.assets[j].key != key && s.models[owner].image == Some(s.assets[j].key)
               && s.assets[j].status != Available && s.assets[j].status != Retired;
      assert t.assets[j] == s.assets[j] && t.assets[j].key in t.cleanup;
    } else if key !in s.cleanup {
      forall i | i in t.assets && t.assets[i].key in t.cleanup ensures t.assets[i].status == Retired {
        var k := s.assets[i].key;
        if k in KeysOf(s.assets, Superseded(s.assets, id, owner)) {
          var j :| j in Superseded(s.assets, id, owner) && s.assets[j].key == k;
          KeysDistinct(s, i, j);
        } else if k !in s.cleanup {
          assert s.models[owner].image == Some(k) && k != key;
          assert i != id;
        }
      }
    }
  }

  // ---- a run that does both ----

  function New(owner: Id, id: Id, content: Content): Asset {
    Asset(owner, ObjectKeyFor(owner, id, content.contentType), content.(checksum := LowerHex(content.checksum)), Requested, 1)
  }

  /** Two requested assets of one model, both uploaded. */
  function Uploaded(m: Id, a: Id, b: Id, content: Content): State {
    State(map[a := New(m, a, content), b := New(m, b, content)], map[m := Model(None, 1)],
          map[New(m, a, content).key := content, New(m, b, content).key := content], {})
  }

  /** One model without an image, and no assets. */
  function Blank(m: Id): State {
    State(map[], map[m := Model(None, 1)], map[], {})
  }

  /** Creating both assets and uploading their bytes. */
  function Making(m: Id, a: Id, b: Id, content: Content): seq<Step> {
    [Begin(Create(a, m, content)), Complete(0), Begin(Create(b, m, content)), Complete(0),
     Uploading(New(m, a, content).key, content), Uploading(New(m, b, content).key, content)]
  }

  lemma UploadedReached(m: Id, a: Id, b: Id, content: Content)
    requires a != b && PlainId(a) && PlainId(b)
    ensures AfterAll(System(Blank(m), []), Making(m, a, b, content)) == System(Uploaded(m, a, b, content), [])
    ensures Known(System(Blank(m), []), {})
  {
    hide ObjectKeyFor, AfterAll;
    var w := System(Blank(m), []);
    var steps := Making(m, a, b, content);
    var w1 := After(w, steps[0]);
    assert w1.tickets == [Insert(a, New(m, a, content))];
    var w2 := After(w1, steps[1]);
    assert w2 == System(Blank(m).(assets := map[a := New(m, a, content)]), []);
    var w3 := After(w2, steps[2]);
    assert w3.tickets == [Insert(b, New(m, b, content))];
    var w4 := After(w3, steps[3]);
    assert w4 == System(Blank(m).(assets := map[a := New(m, a, content), b := New(m, b, content)]), []);
    assert steps == [steps[0], steps[1], steps[2], steps[3], steps[4]] + [steps[5]];
    AfterFive(w, steps[0], steps[1], steps[2], steps[3], steps[4]);
    AfterAllAppends(w, [steps[0], steps[1], steps[2], steps[3], steps[4]], steps[5]);
  }

  lemma {:induction false} AfterAllAppends(w: System, steps: seq<Step>, last: Step)
    ensures AfterAll(w, steps + [last]) == After(AfterAll(w, steps), last)
    decreases |steps|
  {
    if steps == [] {
      assert [] + [last] == [last] && [last][1..] == [];
      assert AfterAll(After(w, last), []) == After(w, last);
    } else {
      assert (steps + [last])[1..] == steps[1..] + [last];
      AfterAllAppends(After(w, steps[0]), steps[1..], last);
    }
  }

  /**
   Two finalizations read the same asset before either writes, and between their writes another
   asset takes its place: the second write makes a retired asset available again, while its
   bytes wait to be deleted.
   */
  lemma InterleavingRevives(m: Id, a: Id, b: Id, content: Content)
    requires a != b && PlainId(a) && PlainId(b)
    ensures var w := System(Uploaded(m, a, b, content), []);
            var meanwhile := AfterAll(w, [Begin(Finalize(a, 1)), Begin(Finalize(a, 1)), Complete(0), Begin(Finalize(b, 1)), Complete(1)]);
            var end := After(meanwhile, Complete(0)).state;
            && w == AfterAll(System(Blank(m), []), Making(m, a, b, content)) && Known(System(Blank(m), []), {})
            && a in meanwhile.state.assets && meanwhile.state.assets[a].status == Retired
            && a in end.assets && end.assets[a].status == Available && end.assets[a].key in end.cleanup
  {
    hide ObjectKeyFor, PlainId, AfterAll, After, Effect, Decide, Uploaded, Known, Making, Blank;
    UploadedReached(m, a, b, content);
    var s := Uploaded(m, a, b, content);
    var linkA, linkB := LinkTo(m, a, content), LinkTo(m, b, content);
    var fa, fb := Begin(Finalize(a, 1)), Begin(Finalize(b, 1));
    UploadedKeeps(m, a, b, content);
    SecondDecision(m, a, b, content);
    SecondLink(m, a, b, content);
    ThirdLink(m, a, b, content);
    var s1 := Effect(s, linkA);
    var s2 := Effect(s1, linkB);
    Reading(s, [], a, 1, linkA);
    assert [] + [linkA] == [linkA];
    var w1 := After(System(s, []), fa);
    Reading(s, [linkA], a, 1, linkA);
    assert [linkA] + [linkA] == [linkA, linkA];
    var w2 := After(w1, fa);
    assert w2 == System(s, [linkA, linkA]);
    Writing(s, [], linkA, [linkA]);
    assert [] + [linkA] + [linkA] == [linkA, linkA];
    var w3 := After(w2, Complete(0));
    assert w3 == System(s1, [linkA]);
    Reading(s1, [linkA], b, 1, linkB);
    var w4 := After(w3, fb);
    Writing(s1, [linkA], linkB, []);
    assert [linkA] + [linkB] + [] == [linkA] + [linkB] && [linkA] + [] == [linkA];
    var w5 := After(w4, Complete(1));
    assert w5 == System(s2, [linkA]);
    Writing(s2, [], linkA, []);
    assert [] + [linkA] + [] == [linkA];
    AfterFive(System(s, []), fa, fa, Complete(0), fb, Complete(1));
  }

  function LinkTo(m: Id, id: Id, content: Content): Ticket {
    Link(id, m, New(m, id, content).key)
  }

  lemma UploadedKeeps(m: Id, a: Id, b: Id, content: Content)
    requires a != b && PlainId(a) && PlainId(b)
    ensures var s := Uploaded(m, a, b, content);
            && Decide(s, Finalize(a, 1)) == Write(LinkTo(m, a, content))
            && s.assets[a].key != s.assets[b].key
  {
    hide ObjectKeyFor, PlainId;
    if New(m, a, content).key == New(m, b, content).key {
      KeyTellsAsset(m, a, content.contentType, m, b, content.contentType);
    }
  }

  lemma Reading(s: State, tickets: seq<Ticket>, id: Id, version: nat, ticket: Ticket)
    requires Decide(s, Finalize(id, version)) == Write(ticket)
    ensures After(System(s, tickets), Begin(Finalize(id, version))) == System(s, tickets + [ticket])
  {
    hide Decide;
  }

  lemma Writing(s: State, before: seq<Ticket>, ticket: Ticket, after: seq<Ticket>)
    ensures After(System(s, before + [ticket] + after), Complete(|before|)) == System(Effect(s, ticket), before + after)
  {
    hide Effect;
    var tickets := before + [ticket] + after;
    assert tickets[..|before|] == before && tickets[|before| + 1..] == after;
  }

  lemma FirstLink(m: Id, a: Id, b: Id, content: Content)
    requires a != b && PlainId(a) && PlainId(b)
    ensures var s1 := Effect(Uploaded(m, a, b, content), LinkTo(m, a, content));
            && s1.assets == map[a := WithStatus(New(m, a, content), Available), b := New(m, b, content)]
            && s1.models == map[m := Model(Some(New(m, a, content).key), 2)]
            && s1.cleanup == {} && s1.storage == Uploaded(m, a, b, content).storage
  {
    hide ObjectKeyFor, PlainId, LowerHex, SameContent;
    var s := Uploaded(m, a, b, content);
    assert Superseded(s.assets, a, m) == {};
    assert KeysOf(s.assets, {}) == {};
    assert AllRetired(s.assets, {}) == s.assets;
  }

  lemma SecondDecision(m: Id, a: Id, b: Id, content: Content)
    requires a != b && PlainId(a) && PlainId(b)
    ensures Decide(Effect(Uploaded(m, a, b, content), LinkTo(m, a, content)), Finalize(b, 1)) == Write(LinkTo(m, b, content))
  {
    hide ObjectKeyFor, PlainId, Effect;
    FirstLink(m, a, b, content);
  }

  lemma SecondLink(m: Id, a: Id, b: Id, content: Content)
    requires a != b && PlainId(a) && PlainId(b)
    ensures var s2 := Effect(Effect(Uploaded(m, a, b, content), LinkTo(m, a, content)), LinkTo(m, b, content));
            && s2.assets == map[a := WithStatus(WithStatus(New(m, a, content), Available), Retired),
                                b := WithStatus(New(m, b, content), Available)]
            && s2.models == map[m := Model(Some(New(m, b, content).key), 3)]
            && New(m, a, content).key in s2.cleanup
  {
    hide ObjectKeyFor, PlainId, Uploaded;
    FirstLink(m, a, b, content);
    var s1 := Effect(Uploaded(m, a, b, content), LinkTo(m, a, content));
    assert Superseded(s1.assets, b, m) == {a};
    assert New(m, a, content).key in KeysOf(s1.assets, {a});
  }

  lemma ThirdLink(m: Id, a: Id, b: Id, content: Content)
    requires a != b && PlainId(a) && PlainId(b)
    ensures var s2 := Effect(Effect(Uploaded(m, a, b, content), LinkTo(m, a, content)), LinkTo(m, b, content));
            var end := Effect(s2, LinkTo(m, a, content));
            && a in s2.assets && s2.assets[a].status == Retired
            && a in end.assets && end.assets[a].status == Available && end.assets[a].key in end.cleanup
  {
    hide ObjectKeyFor, PlainId, Uploaded;
    SecondLink(m, a, b, content);
  }

  lemma AfterFive(w: System, a: Step, b: Step, c: Step, d: Step, e: Step)
    ensures AfterAll(w, [a, b, c, d, e]) == After(After(After(After(After(w, a), b), c), d), e)
  {
    hide After;
    AfterOne(w, a, [b, c, d, e]);
    AfterOne(After(w, a), b, [c, d, e]);
    AfterOne(After(After(w, a), b), c, [d, e]);
    AfterOne(After(After(After(w, a), b), c), d, [e]);
    AfterOne(After(After(After(After(w, a), b), c), d), e, []);
    assert [a] + [b, c, d, e] == [a, b, c, d, e] && [b] + [c, d, e] == [b, c, d, e];
    assert [c] + [d, e] == [c, d, e] && [d] + [e] == [d, e] && [e] + [] == [e];
  }

  lemma AfterOne(w: System, step: Step, steps: seq<Step>)
    ensures AfterAll(w, [step] + steps) == AfterAll(After(w, step), steps)
  {
    assert ([step] + steps)[1..] == steps;
  }
}
