/** Documents as the store keeps them: every record carries the id the store gave it,
    and a collection is the sequence of its documents in insertion order. */
module Documents {

  datatype Option<+T> = None | Some(value: T) {
    function GetOr(default: T): T {
      if Some? then value else default
    }
  }

  /** An ObjectId, abstracted to a number handed out by the store. */
  type Id = nat

  /** A timestamp (Date), abstracted to a number. */
  type Time = nat

  datatype Doc<+T> = Doc(id: Id, body: T)

  /** The ids of a collection are pairwise different and all below the next id to hand out. */
  ghost predicate Allocated<T>(s: seq<Doc<T>>, next: Id) {
    && (forall i :: 0 <= i < |s| ==> s[i].id < next)
    && (forall i, j :: 0 <= i < j < |s| ==> s[i].id != s[j].id)
  }

  /** findById: the position of the document with this id, if there is one. */
  function IndexOf<T>(s: seq<Doc<T>>, id: Id): (r: Option<nat>)
    ensures r.Some? ==> r.value < |s| && s[r.value].id == id
    ensures r.Some? ==> forall i :: 0 <= i < r.value ==> s[i].id != id
    ensures r.None? <==> forall i :: 0 <= i < |s| ==> s[i].id != id
  {
    if s == [] then None
    else if s[0].id == id then Some(0)
    else
      var rest := IndexOf(s[1..], id);
      if rest.Some? then Some(rest.value + 1) else None
  }

  /** In a collection whose ids are distinct, findById finds exactly the document at its position. */
  lemma IndexOfAllocated<T>(s: seq<Doc<T>>, next: Id, i: nat)
    requires Allocated(s, next) && i < |s|
    ensures IndexOf(s, s[i].id) == Some(i)
  {
  }

  /** Appending a document with the next id keeps the ids allocated. */
  lemma AllocatedAppend<T>(s: seq<Doc<T>>, next: Id, body: T)
    requires Allocated(s, next)
    ensures Allocated(s + [Doc(next, body)], next + 1)
  {
  }

  /** Handing out more ids keeps the ids already allocated below the counter. */
  lemma AllocatedGrow<T>(s: seq<Doc<T>>, next: Id, later: Id)
    requires Allocated(s, next) && next <= later
    ensures Allocated(s, later)
  {
  }

  /** Replacing a document's body in place keeps the ids allocated. */
  lemma AllocatedReplace<T>(s: seq<Doc<T>>, next: Id, k: nat, body: T)
    requires Allocated(s, next) && k < |s|
    ensures Allocated(s[k := Doc(s[k].id, body)], next)
  {
  }

  /** Replacing a document's body does not move any id. */
  lemma {:induction false} IndexOfReplace<T>(s: seq<Doc<T>>, k: nat, body: T, id: Id)
    requires k < |s|
    ensures IndexOf(s[k := Doc(s[k].id, body)], id) == IndexOf(s, id)
  {
    if k > 0 {
      assert s[k := Doc(s[k].id, body)][1..] == s[1..][k - 1 := Doc(s[k].id, body)];
      IndexOfReplace(s[1..], k - 1, body, id);
    }
  }

  /** Appending a document does not move the ids already there. */
  lemma IndexOfAppend<T>(s: seq<Doc<T>>, d: Doc<T>, id: Id)
    requires IndexOf(s, id).Some?
    ensures IndexOf(s + [d], id) == IndexOf(s, id)
  {
    var k := IndexOf(s, id).value;
    assert (s + [d])[k].id == id;
  }

  /** The store's `required` validator on a string path: present and not empty. */
  predicate Required(s: Option<string>) {
    s.Some? && s.value != ""
  }
}

/** The JSON envelope every handler answers with. */
module Http {
  datatype Response<+T> =
    | Ok(status: nat, data: T)
    | Fail(status: nat, error: string)
}
