/** Metadata lists as the API server serves them: finite sequences handed out page by page to clients
    that pass a page limit and a continue token (here the offset the token stands for). */
module Paging {
  import opened Types
  import opened Discovery

  type Labels = map<string, string>

  /** PartialObjectMetadata. */
  datatype Meta = Meta(ns: string, name: string, uid: string, rv: string, labels: Labels,
                       finalizers: seq<string>, deletion: Option<int>)

  /** One answer: `count` further items, and whether a continue token came with them. */
  datatype Page = Page(count: nat, more: bool)

  /** The objects of one list, and the answer to each request (offset, limit). */
  datatype Listing = Listing(items: seq<Meta>, answer: (nat, nat) -> Reply<Page>)

  /** The server never exceeds a positive limit, sends a token exactly when items are left, and never
      an empty page with a token. Any request may fail. */
  ghost predicate Honours(l: Listing) {
    forall offset: nat, limit: nat | limit > 0 && offset <= |l.items| ::
      l.answer(offset, limit).Found? ==>
        var p := l.answer(offset, limit).value;
        && p.count <= limit && offset + p.count <= |l.items|
        && (p.more <==> offset + p.count < |l.items|) && (p.more ==> p.count > 0)
  }

  /** A list call. A limit of zero would ask for everything at once, so none may be made with it. */
  function Ask(l: Listing, offset: nat, limit: nat): (r: Reply<Page>)
    requires Honours(l) && limit > 0 && offset <= |l.items|
    ensures r.Found? ==>
              && r.value.count <= limit && offset + r.value.count <= |l.items|
              && (r.value.more <==> offset + r.value.count < |l.items|) && (r.value.more ==> r.value.count > 0)
  {
    l.answer(offset, limit)
  }

  /** How reading a list ends: at its last page, with NotFound or Gone, or with another error. */
  datatype End = Complete | Missing | Broken

  function EndOf(r: Reply<Page>): End {
    if r.Found? then Complete else if Unavailable(r) then Missing else Broken
  }

  /** Reading on from `offset` with a fixed page size. (A page that breaks the server's promises ends the
      walk.) */
  function Walk(l: Listing, size: nat, offset: nat): End
    decreases if offset <= |l.items| then |l.items| - offset else 0
  {
    var r := l.answer(offset, size);
    if r.Found? && r.value.more && r.value.count > 0 && offset + r.value.count <= |l.items|
    then Walk(l, size, offset + r.value.count)
    else EndOf(r)
  }

  /** Reading on from `offset` until `maximum` items are there, never asking for more than are missing. */
  function WalkUpTo(l: Listing, size: nat, maximum: nat, offset: nat): End
    decreases if offset <= |l.items| then |l.items| - offset else 0
  {
    if offset >= maximum then Complete
    else
      var r := l.answer(offset, Min(size, maximum - offset));
      if r.Found? && r.value.more && r.value.count > 0 && offset + r.value.count <= |l.items|
      then WalkUpTo(l, size, maximum, offset + r.value.count)
      else EndOf(r)
  }
}
