/** Key tables as values (server/processMessages/keyTable.go). Entries are objects with an identity
    (their index in `objs`), because the forward and the reverse table share them. */
module KeyTables {
  import opened ByteStrings

  datatype Entry = Entry(
    prev: nat, shared: Bytes, vk: Bytes,
    next: nat, outShared: Bytes, outVk: Bytes,
    used: bool)

  datatype Table = Table(objs: seq<Entry>, fwd: map<Bytes, nat>, rev: map<Bytes, nat>) {
    ghost predicate Valid() {
      && (forall k :: k in fwd ==> fwd[k] < |objs|)
      && (forall k :: k in rev ==> rev[k] < |objs|)
    }

    function Lookup(key: Bytes, reverse: bool): (r: Option<nat>)
      requires Valid()
      ensures r.Some? ==> r.value < |objs|
    {
      if reverse then (if key in rev then Some(rev[key]) else None)
      else if key in fwd then Some(fwd[key]) else None
    }

    function AddKey(e: Entry): (t: Table)
      requires Valid()
      ensures t.Valid()
    {
      Table(objs + [e], fwd[e.vk := |objs|], rev[e.outVk := |objs|])
    }

    function Mark(id: nat): (t: Table)
      requires Valid() && id < |objs|
      ensures t.Valid()
    {
      this.(objs := objs[id := objs[id].(used := true)])
    }

    function SetNext(id: nat, next: nat): (t: Table)
      requires Valid() && id < |objs|
      ensures t.Valid()
    {
      this.(objs := objs[id := objs[id].(next := next)])
    }

    function ResetUsage(): (t: Table)
      requires Valid()
      ensures t.Valid()
    {
      this.(objs := seq<Entry>(|objs|, i requires 0 <= i < |objs| =>
        if i in fwd.Values then objs[i].(used := false) else objs[i]))
    }
  }

  const EMPTY := Table([], map[], map[])
}
