/**
 Images of catalog models: an asset is requested, its bytes are uploaded to object storage,
 and finalizing it links it to its model and supersedes the image before. Every handler first
 reads and judges, and then writes; the bytes of superseded images are deleted afterwards.
 */
module Assets {
  import opened Common

  type Id = string
  type ObjectKey = string

  datatype Content = Content(contentType: string, size: nat, checksum: string)

  datatype Status = Requested | UploadRequested | Available | Quarantined | Retired

  datatype Asset = Asset(owner: Id, key: ObjectKey, declared: Content, status: Status, rowVersion: nat)

  datatype Model = Model(image: Option<ObjectKey>, rowVersion: nat)

  /** The tables, the stored bytes, and the keys whose bytes are still to be deleted. */
  datatype State = State(
    assets: map<Id, Asset>,
    models: map<Id, Model>,
    storage: map<ObjectKey, Content>,
    cleanup: set<ObjectKey>)

  // ---- object keys ----

  function Extension(contentType: string): string {
    if contentType == "image/png" then "png"
    else if contentType == "image/jpeg" then "jpg"
    else if contentType == "image/webp" then "webp"
    else "bin"
  }

  function ObjectKeyFor(owner: Id, id: Id, contentType: string): ObjectKey {
    "pats/models/" + owner + "/" + (id + "." + Extension(contentType))
  }

  /** Asset ids are free of the characters that separate the parts of a key. */
  predicate PlainId(id: Id) {
    '/' !in id && '.' !in id
  }

  lemma {:induction false} LastPart(a: string, b: string, c: string, d: string)
    requires '/' !in b && '/' !in d && a + "/" + b == c + "/" + d
    ensures b == d
    decreases |b|
  {
    var s, t := a + "/" + b, c + "/" + d;
    LastChar(a, b);
    LastChar(c, d);
    if b != [] && d != [] {
      assert s[..|s| - 1] == a + "/" + b[..|b| - 1];
      assert t[..|t| - 1] == c + "/" + d[..|d| - 1];
      LastPart(a, b[..|b| - 1], c, d[..|d| - 1]);
      assert b == b[..|b| - 1] + [b[|b| - 1]] && d == d[..|d| - 1] + [d[|d| - 1]];
    }
  }

  lemma LastChar(a: string, b: string)
    ensures var s := a + "/" + b; s[|s| - 1] == if b == [] then '/' else b[|b| - 1]
  {
  }

  lemma FirstChar(a: string, b: string)
    ensures (a + "." + b)[0] == if a == [] then '.' else a[0]
  {
  }

  lemma {:induction false} FirstPart(a: string, b: string, c: string, d: string)
    requires '.' !in a && '.' !in c && a + "." + b == c + "." + d
    ensures a == c
    decreases |a|
  {
    var s, t := a + "." + b, c + "." + d;
    FirstChar(a, b);
    FirstChar(c, d);
    if a != [] && c != [] {
      assert s[1..] == a[1..] + "." + b && t[1..] == c[1..] + "." + d;
      FirstPart(a[1..], b, c[1..], d);
    }
  }

  /** A key tells which asset it belongs to. */
  lemma KeyTellsAsset(owner: Id, id: Id, contentType: string, otherOwner: Id, otherId: Id, otherType: string)
    requires PlainId(id) && PlainId(otherId)
    requires ObjectKeyFor(owner, id, contentType) == ObjectKeyFor(otherOwner, otherId, otherType)
    ensures id == otherId
  {
    LastPart("pats/models/" + owner, id + "." + Extension(contentType),
             "pats/models/" + otherOwner, otherId + "." + Extension(otherType));
    FirstPart(id, Extension(contentType), otherId, Extension(otherType));
  }

  // ---- the handlers ----

  datatype Request =
    | Create(id: Id, owner: Id, declared: Content)
    | RequestUpload(id: Id)
    | Finalize(id: Id, version: nat)
    | Delete(id: Id, version: nat)

  datatype Answer = Done | Missing | Stale | Closed | NotUploaded | Mismatch

  /** What a handler has decided to write, on the row as it read it. */
  datatype Ticket =
    | Insert(id: Id, asset: Asset)
    | MarkUpload(id: Id)
    | Quarantine(id: Id)
    | Link(id: Id, owner: Id, key: ObjectKey)
    | Retire(id: Id, owner: Id, key: ObjectKey)

  datatype Decision = Refused(answer: Answer) | Write(ticket: Ticket)

  predicate AcceptsUpload(status: Status) {
    status == Requested || status == UploadRequested
  }

  function LowerHex(s: string): string {
    seq(|s|, i requires 0 <= i < |s| => if 'A' <= s[i] <= 'F' then s[i] - 'A' + 'a' else s[i])
  }

  predicate SameContent(stored: Content, declared: Content) {
    && stored.size == declared.size && stored.contentType == declared.contentType
    && LowerHex(stored.checksum) == LowerHex(declared.checksum)
  }

  /** A retired asset reads as missing. */
  predicate Readable(s: State, id: Id) {
    id in s.assets && s.assets[id].status != Retired
  }

  function Decide(s: State, request: Request): Decision {
    match request
    case Create(id, owner, declared) =>
      if owner !in s.models then Refused(Missing)
      else Write(Insert(id, Asset(owner, ObjectKeyFor(owner, id, declared.contentType),
                                  declared.(checksum := LowerHex(declared.checksum)), Requested, 1)))
    case RequestUpload(id) =>
      if !Readable(s, id) then Refused(Missing)
      else if !AcceptsUpload(s.assets[id].status) then Refused(Closed)
      else Write(MarkUpload(id))
    case Finalize(id, version) =>
      if !Readable(s, id) then Refused(Missing)
      else
        var asset := s.assets[id];
        if asset.rowVersion != version then Refused(Stale)
        else if !AcceptsUpload(asset.status) then Refused(Closed)
        else if asset.key !in s.storage then Refused(NotUploaded)
        else if !SameContent(s.storage[asset.key], asset.declared) then Write(Quarantine(id))
        else Write(Link(id, asset.owner, asset.key))
    case Delete(id, version) =>
      if !Readable(s, id) then Refused(Missing)
      else if s.assets[id].rowVersion != version then Refused(Stale)
      else Write(Retire(id, s.assets[id].owner, s.assets[id].key))
  }

  function WithStatus(asset: Asset, status: Status): Asset {
    asset.(status := status, rowVersion := asset.rowVersion + 1)
  }

  /** The other available assets of a model. */
  function Superseded(assets: map<Id, Asset>, id: Id, owner: Id): set<Id> {
    set i | i in assets && i != id && assets[i].owner == owner && assets[i].status == Available
  }

  function AllRetired(assets: map<Id, Asset>, ids: set<Id>): map<Id, Asset> {
    map i | i in assets :: if i in ids then WithStatus(assets[i], Retired) else assets[i]
  }

  function KeysOf(assets: map<Id, Asset>, ids: set<Id>): set<ObjectKey> {
    set i | i in assets && i in ids :: assets[i].key
  }

  function Previous(model: Model, key: ObjectKey): set<ObjectKey> {
    if model.image.Some? && model.image.value != key then {model.image.value} else {}
  }

  /** Linking an asset to its model; without the model the transaction rolls back. */
  function Linked(s: State, id: Id, owner: Id, key: ObjectKey): State {
    if id !in s.assets || owner !in s.models then s
    else
      var superseded := Superseded(s.assets, id, owner);
      s.(assets := AllRetired(s.assets, superseded)[id := WithStatus(s.assets[id], Available)],
         models := s.models[owner := Model(Some(key), s.models[owner].rowVersion + 1)],
         cleanup := s.cleanup + KeysOf(s.assets, superseded) + Previous(s.models[owner], key))
  }

  function Unlinked(s: State, id: Id, owner: Id, key: ObjectKey): State {
    if id !in s.assets then s
    else s.(assets := s.assets[id := WithStatus(s.assets[id], Retired)],
            models := if owner in s.models && s.models[owner].image == Some(key)
                      then s.models[owner := Model(None, s.models[owner].rowVersion + 1)]
                      else s.models)
  }

  function Effect(s: State, ticket: Ticket): State {
    match ticket
    case Insert(id, asset) => if id in s.assets then s else s.(assets := s.assets[id := asset])
    case MarkUpload(id) =>
      if id !in s.assets then s else s.(assets := s.assets[id := s.assets[id].(status := UploadRequested)])
    case Quarantine(id) =>
      if id !in s.assets then s else s.(assets := s.assets[id := WithStatus(s.assets[id], Quarantined)])
    case Link(id, owner, key) => Linked(s, id, owner, key)
    case Retire(id, owner, key) => Unlinked(s, id, owner, key)
  }

  function AnswerTo(s: State, request: Request): Answer {
    match Decide(s, request)
    case Refused(answer) => answer
    case Write(ticket) =>
      if ticket.Quarantine? then Mismatch
      else if ticket.Link? && ticket.owner !in s.models then Missing
      else Done
  }

  /** A handler run without interruption. */
  function Handle(s: State, request: Request): State {
    match Decide(s, request)
    case Refused(_) => s
    case Write(ticket) => Effect(s, ticket)
  }

  /** Whatever is in the bucket changes under the application: uploads go there directly. */
  function Upload(s: State, key: ObjectKey, content: Content): State {
    s.(storage := s.storage[key := content])
  }

  /** One superseded image's bytes are deleted; a failed delete leaves them. */
  function CleanedUp(s: State, key: ObjectKey, deleted: bool): State {
    if key !in s.cleanup then s
    else s.(storage := if deleted then s.storage - {key} else s.storage, cleanup := s.cleanup - {key})
  }

  class AssetStore {
    var assets: map<Id, Asset>
    var models: map<Id, Model>
    var storage: map<ObjectKey, Content>
    var cleanup: set<ObjectKey>

    ghost function Now(): State
      reads this
    {
      State(assets, models, storage, cleanup)
    }

    /** A new asset waits for its upload under a key no other asset has; the law of the store
        stays in force. */
    method CreateAsset(id: Id, owner: Id, declared: Content) returns (answer: Answer)
      requires id !in assets
      modifies this`assets
      ensures answer == AnswerTo(old(Now()), Create(id, owner, declared))
      ensures Now() == Handle(old(Now()), Create(id, owner, declared))
      ensures answer.Done? <==> owner in models
      ensures answer.Done? && PlainId(id) && KeysBuilt(old(Now())) ==>
                && id in assets && AcceptsUpload(assets[id].status)
                && forall other :: other in old(assets) ==> other in assets && assets[other].key != assets[id].key
      ensures forall external :: AtomicInv(old(Now()), external) && FreshRequest(old(Now()), Create(id, owner, declared), external) ==>
                AtomicInv(Now(), external)
    {
      ghost var before, request := Now(), Create(id, owner, declared);
      if PlainId(id) && KeysBuilt(before) { FreshKey(before, request); }
      HandleKeepsAll(before, request);
      if owner !in models {
        return Missing;
      }
      var key := ObjectKeyFor(owner, id, declared.contentType);
      assets := assets[id := Asset(owner, key, declared.(checksum := LowerHex(declared.checksum)), Requested, 1)];
      return Done;
    }

    method ReadAsset(id: Id) returns (asset: Option<Asset>)
      ensures asset == if Readable(Now(), id) then Some(assets[id]) else None
    {
      if id !in assets || assets[id].status == Retired {
        return None;
      }
      return Some(assets[id]);
    }

    method RequestUploadUrl(id: Id) returns (answer: Answer)
      modifies this`assets
      ensures answer == AnswerTo(old(Now()), RequestUpload(id))
      ensures Now() == Handle(old(Now()), RequestUpload(id))
      ensures forall external :: AtomicInv(old(Now()), external) ==> AtomicInv(Now(), external)
    {
      HandleKeepsAll(Now(), RequestUpload(id));
      var asset := ReadAsset(id);
      if asset.None? {
        return Missing;
      }
      if asset.value.status != Requested && asset.value.status != UploadRequested {
        return Closed;
      }
      assets := assets[id := assets[id].(status := UploadRequested)];
      return Done;
    }

    method FinalizeAsset(id: Id, version: nat) returns (answer: Answer)
      modifies this`assets, this`models, this`cleanup
      ensures answer == AnswerTo(old(Now()), Finalize(id, version))
      ensures Now() == Handle(old(Now()), Finalize(id, version))
      ensures forall external :: AtomicInv(old(Now()), external) ==> AtomicInv(Now(), external)
    {
      HandleKeepsAll(Now(), Finalize(id, version));
      var asset := ReadAsset(id);
      if asset.None? {
        return Missing;
      }
      var row := asset.value;
      if row.rowVersion != version {
        return Stale;
      }
      if row.status != Requested && row.status != UploadRequested {
        return Closed;
      }
      if row.key !in storage {
        return NotUploaded;
      }
      if !SameContent(storage[row.key], row.declared) {
        assets := assets[id := WithStatus(assets[id], Quarantined)];
        return Mismatch;
      }
      if row.owner !in models {
        return Missing;
      }
      var model := models[row.owner];
      var superseded := Superseded(assets, id, row.owner);
      var supersededKeys := KeysOf(assets, superseded) + Previous(model, row.key);
      assets := AllRetired(assets, superseded)[id := WithStatus(assets[id], Available)];
      models := models[row.owner := Model(Some(row.key), model.rowVersion + 1)];
      cleanup := cleanup + supersededKeys;
      return Done;
    }

    /** Deleting superseded bytes one key after another; what cannot be reached is skipped. */
    method CleanUp(reachable: set<ObjectKey>)
      modifies this`storage, this`cleanup
      ensures cleanup == {} && storage == old(storage) - (old(cleanup) * reachable)
    {
      ghost var was := cleanup;
      while cleanup != {}
        invariant cleanup <= was && storage == old(storage) - ((was - cleanup) * reachable)
        decreases cleanup
      {
        ghost var left := cleanup;
        var key :| key in cleanup;
        if key in reachable {
          storage := storage - {key};
        }
        cleanup := cleanup - {key};
        assert was - cleanup == (was - left) + {key};
      }
    }

    method DeleteAsset(id: Id, version: nat) returns (answer: Answer)
      modifies this`assets, this`models
      ensures answer == AnswerTo(old(Now()), Delete(id, version))
      ensures Now() == Handle(old(Now()), Delete(id, version))
      ensures forall external :: AtomicInv(old(Now()), external) ==> AtomicInv(Now(), external)
    {
      HandleKeepsAll(Now(), Delete(id, version));
      var asset := ReadAsset(id);
      if asset.None? {
        return Missing;
      }
      var row := asset.value;
      if row.rowVersion != version {
        return Stale;
      }
      assets := assets[id := WithStatus(assets[id], Retired)];
      if row.owner in models && models[row.owner].image == Some(row.key) {
        models := models[row.owner := Model(None, models[row.owner].rowVersion + 1)];
      }
      return Done;
    }
  }

  // ---- what holds however requests interleave ----

  /** Keys were built from the assets' own ids. */
  ghost predicate KeysBuilt(s: State) {
    forall id :: id in s.assets ==>
      PlainId(id) && s.assets[id].key == ObjectKeyFor(s.assets[id].owner, id, s.assets[id].declared.contentType)
  }

  /** The image of a model is the key of its available asset. */
  ghost predicate ImagesLinked(s: State) {
    forall id :: id in s.assets && s.assets[id].status == Available ==>
      s.assets[id].owner in s.models && s.models[s.assets[id].owner].image == Some(s.assets[id].key)
  }

  lemma KeysDistinct(s: State, i: Id, j: Id)
    requires KeysBuilt(s) && i in s.assets && j in s.assets && s.assets[i].key == s.assets[j].key
    ensures i == j
  {
    var a, b := s.assets[i], s.assets[j];
    KeyTellsAsset(a.owner, i, a.declared.contentType, b.owner, j, b.declared.contentType);
  }

  /** So a model has at most one available asset. */
  lemma OneAvailable(s: State, i: Id, j: Id)
    requires KeysBuilt(s) && ImagesLinked(s)
    requires i in s.assets && s.assets[i].status == Available
    requires j in s.assets && s.assets[j].status == Available && s.assets[i].owner == s.assets[j].owner
    ensures i == j
  {
    KeysDistinct(s, i, j);
  }

  /** A ticket still names its asset's owner and key, whatever happened to the asset since. */
  ghost predicate Sound(s: State, ticket: Ticket) {
    match ticket
    case Insert(id, asset) =>
      PlainId(id) && asset.status == Requested && asset.key == ObjectKeyFor(asset.owner, id, asset.declared.contentType)
    case Link(id, owner, key) => id in s.assets && s.assets[id].owner == owner && s.assets[id].key == key
    case Retire(id, owner, key) => id in s.assets && s.assets[id].owner == owner && s.assets[id].key == key
    case MarkUpload(_) => true
    case Quarantine(_) => true
  }

  datatype Step =
    | Begin(request: Request)
    | Complete(index: nat)
    | Abandon(index: nat)
    | Uploading(key: ObjectKey, content: Content)
    | CleaningUp(key: ObjectKey, deleted: bool)

  /** The store with the handlers that have decided and not yet written. */
  datatype System = System(state: State, tickets: seq<Ticket>)

  function After(w: System, step: Step): System {
    match step
    case Begin(request) =>
      (match Decide(w.state, request)
       case Refused(_) => w
       case Write(ticket) => w.(tickets := w.tickets + [ticket]))
    case Complete(i) =>
      if i >= |w.tickets| then w
      else System(Effect(w.state, w.tickets[i]), w.tickets[..i] + w.tickets[i + 1..])
    case Abandon(i) =>
      if i >= |w.tickets| then w else w.(tickets := w.tickets[..i] + w.tickets[i + 1..])
    case Uploading(key, content) => w.(state := Upload(w.state, key, content))
    case CleaningUp(key, deleted) => w.(state := CleanedUp(w.state, key, deleted))
  }

  predicate PlainStep(step: Step) {
    step.Begin? && step.request.Create? ==> PlainId(step.request.id)
  }

  ghost predicate SystemInv(w: System) {
    KeysBuilt(w.state) && ImagesLinked(w.state) && forall i :: 0 <= i < |w.tickets| ==> Sound(w.state, w.tickets[i])
  }

  /** No write removes an asset or changes its owner, key or declared content. */
  lemma EffectKeepsRows(s: State, ticket: Ticket, id: Id)
    requires id in s.assets
    ensures id in Effect(s, ticket).assets
    ensures var a, b := s.assets[id], Effect(s, ticket).assets[id];
            b.owner == a.owner && b.key == a.key && b.declared == a.declared
  {
  }

  lemma EffectKeepsLinks(s: State, ticket: Ticket)
    requires KeysBuilt(s) && ImagesLinked(s) && Sound(s, ticket)
    ensures KeysBuilt(Effect(s, ticket)) && ImagesLinked(Effect(s, ticket))
  {
    hide ObjectKeyFor, PlainId;
    var t := Effect(s, ticket);
    forall id | id in t.assets && t.assets[id].status == Available
      ensures t.assets[id].owner in t.models && t.models[t.assets[id].owner].image == Some(t.assets[id].key)
    {
      if ticket.Retire? && ticket.id in s.assets {
        if t.assets[id].key == ticket.key { KeysDistinct(s, id, ticket.id); }
      }
    }
  }

  /** In any interleaving the image of every model with an available asset is that asset's key. */
  lemma StepKeepsLinks(w: System, step: Step)
    requires SystemInv(w) && PlainStep(step)
    ensures SystemInv(After(w, step))
  {
    hide ObjectKeyFor, PlainId, KeysBuilt, ImagesLinked;
    var v := After(w, step);
    match step
    case Begin(request) =>
      DecidedSound(w.state, request);
    case Complete(i) =>
      if i < |w.tickets| {
        EffectKeepsLinks(w.state, w.tickets[i]);
        forall k | 0 <= k < |v.tickets| ensures Sound(v.state, v.tickets[k]) {
          var ticket := w.tickets[if k < i then k else k + 1];
          assert v.tickets[k] == ticket;
          if ticket.Link? || ticket.Retire? { EffectKeepsRows(w.state, w.tickets[i], ticket.id); }
        }
      }
    case Abandon(i) =>
    case Uploading(key, content) =>
      SameTables(w.state, v.state);
    case CleaningUp(key, deleted) =>
      SameTables(w.state, v.state);
  }

  lemma SameTables(s: State, t: State)
    requires t.assets == s.assets && t.models == s.models
    ensures KeysBuilt(t) == KeysBuilt(s) && ImagesLinked(t) == ImagesLinked(s)
  {
    hide ObjectKeyFor, PlainId;
  }

  lemma DecidedSound(s: State, request: Request)
    requires request.Create? ==> PlainId(request.id)
    ensures var d := Decide(s, request); d.Write? ==> Sound(s, d.ticket)
  {
    hide ObjectKeyFor, PlainId, SameContent;
  }

  function AfterAll(w: System, steps: seq<Step>): System
    decreases |steps|
  {
    if steps == [] then w else AfterAll(After(w, steps[0]), steps[1..])
  }

  lemma {:induction false} InterleavingsKeepLinks(w: System, steps: seq<Step>)
    requires SystemInv(w) && forall i :: 0 <= i < |steps| ==> PlainStep(steps[i])
    ensures SystemInv(AfterAll(w, steps))
    decreases |steps|
  {
    hide PlainStep, SystemInv;
    if steps != [] {
      StepKeepsLinks(w, steps[0]);
      InterleavingsKeepLinks(After(w, steps[0]), steps[1..]);
    }
  }

  // ---- what holds when handlers are not interrupted ----

  /** Where a status may go. */
  predicate Follows(before: Status, after: Status) {
    after == before
    || (match before
        case Requested => true
        case UploadRequested => after != Requested
        case Available => after == Retired
        case Quarantined => after == Retired
        case Retired => false)
  }

  /** Retired is final, and a quarantined asset can only be retired. */
  lemma HandleFollows(s: State, request: Request, id: Id)
    requires id in s.assets
    ensures id in Handle(s, request).assets && Follows(s.assets[id].status, Handle(s, request).assets[id].status)
  {
    hide ObjectKeyFor, SameContent;
  }

  /** Images that no asset has: those the models had before any asset was made. */
  type External = set<ObjectKey>

  ghost predicate Owned(s: State, key: ObjectKey) {
    exists id :: id in s.assets && s.assets[id].key == key
  }

  ghost predicate ImagesKnown(s: State, external: External) {
    && (forall m :: m in s.models && s.models[m].image.Some? ==>
          s.models[m].image.value in external || Owned(s, s.models[m].image.value))
    && (forall key :: key in s.cleanup ==> key in external || Owned(s, key))
    && (forall id :: id in s.assets ==> s.assets[id].key !in external)
  }

  /** An image that is an asset's key is that of the model's own available asset. */
  ghost predicate ImagesAvailable(s: State) {
    forall m, id :: m in s.models && id in s.assets && s.models[m].image == Some(s.assets[id].key) ==>
      s.assets[id].status == Available && s.assets[id].owner == m
  }

  /** Bytes waiting to be deleted belong to no asset but retired ones. */
  ghost predicate CleanupRetired(s: State) {
    forall id :: id in s.assets && s.assets[id].key in s.cleanup ==> s.assets[id].status == Retired
  }

  ghost predicate AtomicInv(s: State, external: External) {
    KeysBuilt(s) && ImagesLinked(s) && ImagesKnown(s, external) && ImagesAvailable(s) && CleanupRetired(s)
  }

  /** A new asset's id has not been used, and its key is not that of an outside image. */
  ghost predicate FreshRequest(s: State, request: Request, external: External) {
    request.Create? ==>
      && PlainId(request.id) && request.id !in s.assets
      && ObjectKeyFor(request.owner, request.id, request.declared.contentType) !in external
  }

  lemma FreshKey(s: State, request: Request)
    requires KeysBuilt(s) && request.Create? && PlainId(request.id) && request.id !in s.assets
    ensures !Owned(s, ObjectKeyFor(request.owner, request.id, request.declared.contentType))
  {
    hide ObjectKeyFor, PlainId;
    forall id | id in s.assets ensures s.assets[id].key != ObjectKeyFor(request.owner, request.id, request.declared.contentType) {
      var a := s.assets[id];
      if a.key == ObjectKeyFor(request.owner, request.id, request.declared.contentType) {
        KeyTellsAsset(a.owner, id, a.declared.contentType, request.owner, request.id, request.declared.contentType);
      }
    }
  }

  lemma OwnedStays(s: State, t: State, key: ObjectKey)
    requires Owned(s, key) && forall id :: id in s.assets ==> id in t.assets && t.assets[id].key == s.assets[id].key
    ensures Owned(t, key)
  {
    var id :| id in s.assets && s.assets[id].key == key;
    assert t.assets[id].key == key;
  }

  lemma HandleKeeps(s: State, request: Request, external: External)
    requires AtomicInv(s, external) && FreshRequest(s, request, external)
    ensures AtomicInv(Handle(s, request), external)
  {
    hide ObjectKeyFor, PlainId, SameContent, Owned;
    var d := Decide(s, request);
    if d.Write? {
      DecidedSound(s, request);
      EffectKeepsLinks(s, d.ticket);
      match d.ticket
      case Insert(_, _) => InsertKeeps(s, request, external);
      case Link(id, owner, key) => LinkKeeps(s, id, owner, key, external);
      case Retire(id, owner, key) => RetireKeeps(s, id, owner, key, external);
      case MarkUpload(id) => RestatusKeeps(s, Effect(s, d.ticket), id, external);
      case Quarantine(id) => RestatusKeeps(s, Effect(s, d.ticket), id, external);
    }
  }

  lemma HandleKeepsAll(s: State, request: Request)
    ensures forall external :: AtomicInv(s, external) && FreshRequest(s, request, external) ==> AtomicInv(Handle(s, request), external)
  {
    hide AtomicInv, FreshRequest, Handle;
    forall external | AtomicInv(s, external) && FreshRequest(s, request, external) ensures AtomicInv(Handle(s, request), external) {
      HandleKeeps(s, request, external);
    }
  }

  lemma KnownStays(s: State, t: State, external: External)
    requires ImagesKnown(s, external)
    requires forall id :: id in s.assets ==> id in t.assets && t.assets[id].key == s.assets[id].key
    requires forall id :: id in t.assets ==> t.assets[id].key !in external
    requires forall m :: m in t.models && t.models[m].image.Some? ==>
               (m in s.models && s.models[m].image == t.models[m].image) || Owned(s, t.models[m].image.value)
    requires forall key :: key in t.cleanup ==> key in s.cleanup || key in external || Owned(s, key)
    ensures ImagesKnown(t, external)
  {
    hide Owned;
    forall key | Owned(s, key) ensures Owned(t, key) {
      OwnedStays(s, t, key);
    }
  }

  lemma InsertKeeps(s: State, request: Request, external: External)
    requires AtomicInv(s, external) && FreshRequest(s, request, external) && request.Create? && Decide(s, request).Write?
    ensures var t := Handle(s, request); ImagesKnown(t, external) && ImagesAvailable(t) && CleanupRetired(t)
  {
    hide ObjectKeyFor, PlainId;
    FreshKey(s, request);
    var t := Handle(s, request);
    var key := t.assets[request.id].key;
    KnownStays(s, t, external);
    assert key !in s.cleanup;
    assert forall m :: m in s.models ==> s.models[m].image != Some(key);
  }

  /** Changing the status of an asset that still accepts uploads. */
  lemma RestatusKeeps(s: State, t: State, id: Id, external: External)
    requires AtomicInv(s, external) && id in s.assets && AcceptsUpload(s.assets[id].status)
    requires t.models == s.models && t.cleanup == s.cleanup
    requires id in t.assets && t.assets == s.assets[id := t.assets[id]] && t.assets[id].key == s.assets[id].key
    ensures ImagesKnown(t, external) && ImagesAvailable(t) && CleanupRetired(t)
  {
    hide ObjectKeyFor, PlainId, Owned;
    KnownStays(s, t, external);
  }

  lemma RetireKeeps(s: State, id: Id, owner: Id, key: ObjectKey, external: External)
    requires AtomicInv(s, external) && id in s.assets && s.assets[id].owner == owner && s.assets[id].key == key
    ensures var t := Unlinked(s, id, owner, key); ImagesKnown(t, external) && ImagesAvailable(t) && CleanupRetired(t)
  {
    hide ObjectKeyFor, PlainId, Owned;
    var t := Unlinked(s, id, owner, key);
    KnownStays(s, t, external);
    forall m, i | m in t.models && i in t.assets && t.models[m].image == Some(t.assets[i].key)
      ensures t.assets[i].status == Available && t.assets[i].owner == m
    {
      assert s.models[m].image == Some(s.assets[i].key);
    }
  }

  lemma LinkKeeps(s: State, id: Id, owner: Id, key: ObjectKey, external: External)
    requires AtomicInv(s, external)
    requires id in s.assets && AcceptsUpload(s.assets[id].status) && s.assets[id].owner == owner && s.assets[id].key == key
    ensures var t := Linked(s, id, owner, key); ImagesKnown(t, external) && ImagesAvailable(t) && CleanupRetired(t)
  {
    hide ObjectKeyFor, PlainId;
    if owner in s.models {
      var t := Linked(s, id, owner, key);
      var superseded := Superseded(s.assets, id, owner);
      forall k | k in KeysOf(s.assets, superseded) ensures Owned(s, k) {
      }
      assert Owned(s, key);
      KnownStays(s, t, external);
      forall m, i | m in t.models && i in t.assets && t.models[m].image == Some(t.assets[i].key)
        ensures t.assets[i].status == Available && t.assets[i].owner == m
      {
        if m == owner {
          KeysDistinct(s, i, id);
        } else {
          assert s.models[m].image == Some(s.assets[i].key);
        }
      }
      forall i | i in t.assets && t.assets[i].key in t.cleanup ensures t.assets[i].status == Retired {
        CleanedAreRetired(s, id, owner, key, external, i);
      }
    }
  }

  lemma CleanedAreRetired(s: State, id: Id, owner: Id, key: ObjectKey, external: External, i: Id)
    requires AtomicInv(s, external) && owner in s.models
    requires id in s.assets && AcceptsUpload(s.assets[id].status) && s.assets[id].owner == owner && s.assets[id].key == key
    requires var t := Linked(s, id, owner, key); i in t.assets && t.assets[i].key in t.cleanup
    ensures Linked(s, id, owner, key).assets[i].status == Retired
  {
    hide ObjectKeyFor, PlainId, Owned;
    var superseded := Superseded(s.assets, id, owner);
    var k := s.assets[i].key;
    if k in s.cleanup {
      assert s.assets[i].status == Retired && i != id;
    } else if k in KeysOf(s.assets, superseded) {
      var j :| j in superseded && s.assets[j].key == k;
      KeysDistinct(s, i, j);
    }
  }

  datatype Event =
    | Handling(request: Request)
    | Storing(key: ObjectKey, content: Content)
    | Deleting(key: ObjectKey, deleted: bool)

  function Next(s: State, event: Event): State {
    match event
    case Handling(request) => Handle(s, request)
    case Storing(key, content) => Upload(s, key, content)
    case Deleting(key, deleted) => CleanedUp(s, key, deleted)
  }

  function NextAll(s: State, events: seq<Event>): State
    decreases |events|
  {
    if events == [] then s else NextAll(Next(s, events[0]), events[1..])
  }

  ghost predicate FreshRun(s: State, events: seq<Event>, external: External)
    decreases |events|
  {
    events == [] ||
    (&& (events[0].Handling? ==> FreshRequest(s, events[0].request, external))
     && FreshRun(Next(s, events[0]), events[1..], external))
  }

  lemma NextKeeps(s: State, event: Event, external: External)
    requires AtomicInv(s, external) && (event.Handling? ==> FreshRequest(s, event.request, external))
    ensures AtomicInv(Next(s, event), external)
  {
    hide ObjectKeyFor, PlainId;
    match event
    case Handling(request) => HandleKeeps(s, request, external);
    case Storing(key, content) =>
    case Deleting(key, deleted) =>
      assert forall k :: Owned(Next(s, event), k) == Owned(s, k);
  }

  /** In every run: the link invariant, and no byte clean-up of an asset that is not retired. */
  lemma {:induction false} RunKeeps(s: State, events: seq<Event>, external: External)
    requires AtomicInv(s, external) && FreshRun(s, events, external)
    ensures AtomicInv(NextAll(s, events), external)
    decreases |events|
  {
    hide AtomicInv, FreshRequest;
    if events != [] {
      NextKeeps(s, events[0], external);
      RunKeeps(Next(s, events[0]), events[1..], external);
    }
  }

  /** Whenever an event deletes bytes, they are those of no available asset. */
  lemma CleanupSparesAvailable(s: State, event: Event, external: External, id: Id)
    requires AtomicInv(s, external) && event.Deleting?
    requires id in s.assets && s.assets[id].status == Available && s.assets[id].key in s.storage
    ensures s.assets[id].key in Next(s, event).storage
  {
  }

  /** Once retired or quarantined, an asset never becomes available again in any run. */
  lemma {:induction false} RetiredForGood(s: State, events: seq<Event>, id: Id)
    requires id in s.assets
    ensures id in NextAll(s, events).assets
    ensures s.assets[id].status == Retired ==> NextAll(s, events).assets[id].status == Retired
    ensures s.assets[id].status == Quarantined ==> NextAll(s, events).assets[id].status in {Quarantined, Retired}
    decreases |events|
  {
    hide Follows;
    if events != [] {
      if events[0].Handling? { HandleFollows(s, events[0].request, id); }
      FollowsMeans(s.assets[id].status, Next(s, events[0]).assets[id].status);
      RetiredForGood(Next(s, events[0]), events[1..], id);
    }
  }

  lemma FollowsMeans(before: Status, after: Status)
    ensures Follows(before, after) && before == Retired ==> after == Retired
    ensures Follows(before, after) && before == Quarantined ==> after in {Quarantined, Retired}
    ensures Follows(before, before)
  {
  }
}
