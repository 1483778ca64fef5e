/** What the asset handlers leave in the tables when nothing interrupts them, and when they refuse. */
module AssetEffects {
  import opened Common
  import opened Assets

  /** Two hexadecimal texts that differ in the case of their digits only. */
  predicate SameHex(a: string, b: string) {
    |a| == |b| && forall i :: 0 <= i < |a| ==> SmallHex(a[i]) == SmallHex(b[i])
  }

  function SmallHex(c: char): char {
    match c
    case 'A' => 'a'
    case 'B' => 'b'
    case 'C' => 'c'
    case 'D' => 'd'
    case 'E' => 'e'
    case 'F' => 'f'
    case _ => c
  }

  lemma LowerHexIs(s: string, i: nat)
    requires i < |s|
    ensures |LowerHex(s)| == |s| && LowerHex(s)[i] == SmallHex(s[i])
  {
    var c := s[i];
    assert 'A' <= c <= 'F' ==> c == 'A' || c == 'B' || c == 'C' || c == 'D' || c == 'E' || c == 'F';
  }

  /** The stored bytes are what was declared, their checksum in either case. */
  predicate AsDeclared(stored: Content, declared: Content) {
    stored.contentType == declared.contentType && stored.size == declared.size && SameHex(stored.checksum, declared.checksum)
  }

  lemma AsDeclaredExactly(stored: Content, declared: Content)
    ensures SameContent(stored, declared) <==> AsDeclared(stored, declared)
  {
    hide LowerHex, SmallHex;
    var a, b := stored.checksum, declared.checksum;
    HexLengths(a, b);
    forall i | 0 <= i < |a| && |a| == |b| ensures LowerHex(a)[i] == SmallHex(a[i]) && LowerHex(b)[i] == SmallHex(b[i]) {
      LowerHexIs(a, i);
      LowerHexIs(b, i);
    }
  }

  lemma HexLengths(a: string, b: string)
    ensures |LowerHex(a)| == |a| && |LowerHex(b)| == |b|
  {
  }

  /** A new asset waits for its upload at version 1, under a key made of its model, itself and its type. */
  lemma CreationEffect(s: State, id: Id, owner: Id, declared: Content)
    requires id !in s.assets
    ensures var t, a := Handle(s, Create(id, owner, declared)), AnswerTo(s, Create(id, owner, declared));
            if owner !in s.models then t == s && a == Missing
            else
              && a == Done && t == s.(assets := t.assets) && id in t.assets && t.assets == s.assets[id := t.assets[id]]
              && var x := t.assets[id];
              && x.owner == owner && x.status == Requested && x.rowVersion == 1
              && x.declared.contentType == declared.contentType && x.declared.size == declared.size
              && SameHex(x.declared.checksum, declared.checksum)
              && x.key == "pats/models/" + owner + "/" + id + "."
                          + match declared.contentType
                            case "image/png" => "png"
                            case "image/jpeg" => "jpg"
                            case "image/webp" => "webp"
                            case _ => "bin"
  {
    LoweredSameHex(declared.checksum);
    assert "pats/models/" + owner + "/" + (id + "." + Extension(declared.contentType))
        == "pats/models/" + owner + "/" + id + "." + Extension(declared.contentType);
  }

  lemma LoweredSameHex(s: string)
    ensures SameHex(LowerHex(s), s)
  {
    forall i | 0 <= i < |s| ensures SmallHex(LowerHex(s)[i]) == SmallHex(s[i]) {
      LowerHexIs(s, i);
    }
  }

  /** An asset still waiting is marked as asked for; a retired one reads as missing, any other refuses. */
  lemma UploadEffect(s: State, id: Id)
    ensures var t, a := Handle(s, RequestUpload(id)), AnswerTo(s, RequestUpload(id));
            if id in s.assets && s.assets[id].status in {Requested, UploadRequested}
            then a == Done && t == s.(assets := s.assets[id := s.assets[id].(status := UploadRequested)])
            else t == s && a == if id !in s.assets || s.assets[id].status == Retired then Missing else Closed
  {
  }

  /** Why a finalization refuses, in order. */
  function Refusal(s: State, id: Id, version: nat): Option<Answer> {
    if id !in s.assets || s.assets[id].status == Retired then Some(Missing)
    else if s.assets[id].rowVersion != version then Some(Stale)
    else if s.assets[id].status in {Available, Quarantined} then Some(Closed)
    else if s.assets[id].key !in s.storage then Some(NotUploaded)
    else if AsDeclared(s.storage[s.assets[id].key], s.assets[id].declared) && s.assets[id].owner !in s.models then Some(Missing)
    else None
  }

  /** A finalization refuses and writes nothing, or quarantines bytes that are not as declared, or makes
      the asset its model's image: the model's other available assets retire, and their keys and the
      image before wait to be deleted. */
  lemma FinalizeEffect(s: State, id: Id, version: nat)
    ensures var t, a, refusal := Handle(s, Finalize(id, version)), AnswerTo(s, Finalize(id, version)), Refusal(s, id, version);
            if refusal.Some? then t == s && a == refusal.value
            else
              && id in s.assets && s.assets[id].key in s.storage
              && var x := s.assets[id];
              if !AsDeclared(s.storage[x.key], x.declared)
              then a == Mismatch && t == s.(assets := s.assets[id := x.(status := Quarantined, rowVersion := x.rowVersion + 1)])
              else a == Done && x.owner in s.models && ImageTaken(s, t, id)
  {
    hide SameContent, AsDeclared, ImageTaken, Linked;
    if id in s.assets && s.assets[id].key in s.storage {
      AsDeclaredExactly(s.storage[s.assets[id].key], s.assets[id].declared);
      if s.assets[id].owner in s.models {
        LinkedTakes(s, id);
      } else {
        NoModel(s, id);
      }
    }
  }

  /** The asset is available and its model's image; the model's other available assets are retired. */
  ghost predicate ImageTaken(s: State, t: State, id: Id)
    requires id in s.assets && s.assets[id].owner in s.models
  {
    var x, model := s.assets[id], s.models[s.assets[id].owner];
    && t == s.(assets := t.assets, models := t.models, cleanup := t.cleanup)
    && t.models == s.models[x.owner := Model(Some(x.key), model.rowVersion + 1)]
    && t.assets.Keys == s.assets.Keys
    && (forall i :: i in s.assets ==>
          t.assets[i] == if i == id then x.(status := Available, rowVersion := x.rowVersion + 1)
                         else if Displaced(s, id, i) then s.assets[i].(status := Retired, rowVersion := s.assets[i].rowVersion + 1)
                         else s.assets[i])
    && forall key :: key in t.cleanup <==>
         key in s.cleanup || (exists i :: Displaced(s, id, i) && s.assets[i].key == key)
         || (model.image == Some(key) && key != x.key)
  }

  predicate Displaced(s: State, id: Id, i: Id)
    requires id in s.assets
  {
    i in s.assets && i != id && s.assets[i].owner == s.assets[id].owner && s.assets[i].status == Available
  }

  lemma LinkedTakes(s: State, id: Id)
    requires id in s.assets && s.assets[id].owner in s.models
    ensures ImageTaken(s, Linked(s, id, s.assets[id].owner, s.assets[id].key), id)
  {
  }

  lemma NoModel(s: State, id: Id)
    requires id in s.assets && s.assets[id].owner !in s.models
    ensures Linked(s, id, s.assets[id].owner, s.assets[id].key) == s
  {
  }

  /** A deletion retires the asset and takes it off its model, if it was the model's image. */
  lemma DeletionEffect(s: State, id: Id, version: nat)
    ensures var t, a := Handle(s, Delete(id, version)), AnswerTo(s, Delete(id, version));
            if id !in s.assets || s.assets[id].status == Retired then t == s && a == Missing
            else if s.assets[id].rowVersion != version then t == s && a == Stale
            else
              && a == Done && var x := s.assets[id];
              t == s.(assets := s.assets[id := x.(status := Retired, rowVersion := version + 1)],
                      models := if x.owner in s.models && s.models[x.owner].image == Some(x.key)
                                then s.models[x.owner := Model(None, s.models[x.owner].rowVersion + 1)] else s.models)
  {
  }

  /** A superseded image's bytes are deleted, or left when they cannot be reached; either way the key
      waits no longer. Only waiting keys are touched. */
  lemma CleanupEffect(s: State, key: ObjectKey, deleted: bool)
    ensures var t := CleanedUp(s, key, deleted);
            && t.assets == s.assets && t.models == s.models
            && key !in t.cleanup && (forall k :: k != key ==> (k in t.cleanup <==> k in s.cleanup))
            && (forall k :: k in t.storage <==> k in s.storage && !(k == key && deleted && key in s.cleanup))
            && forall k :: k in t.storage ==> t.storage[k] == s.storage[k]
  {
  }
}
