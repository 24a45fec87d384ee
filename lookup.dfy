/**
 * The two lookups of json.c:749-766: walk the `next` chain of members from a
 * `json_object` and stop at the first whose name compares equal to the key
 * under `strcmp`.  `get_value` returns that member's value; `get_string_first`
 * returns its string only if the value is a string scalar.
 */
module Lookup {
  import opened Basics
  import opened Tree

  /** `strcmp` reading the `name` of a member that never received one. */
  datatype Fault = UnnamedMember

  /** A link to a member, or the end of a chain. */
  predicate AtMember(nodes: seq<Node>, l: Link) {
    LinkIn(nodes, l) && (l.To? ==> nodes[l.index].Member?)
  }

  /** The `next` of a member is a member again, and lies further on. */
  lemma NextMember(nodes: seq<Node>, i: nat)
    requires WellFormed(nodes) && i < |nodes| && nodes[i].Member?
    ensures AtMember(nodes, nodes[i].next)
    ensures nodes[i].next.To? ==> i < nodes[i].next.index
  {
    assert Edge(nodes, i, true) == nodes[i].next;
  }

  /** The members met from `l` on, in `next` order. */
  function Members(nodes: seq<Node>, l: Link): (r: seq<nat>)
    requires WellFormed(nodes) && AtMember(nodes, l)
    ensures forall k :: 0 <= k < |r| ==> r[k] < |nodes| && nodes[r[k]].Member?
    ensures l.Null? <==> r == []
    ensures l.To? ==> r[0] == l.index
    decreases Rank(nodes, l)
  {
    match l
    case Null => []
    case To(i) => NextMember(nodes, i); [i] + Members(nodes, nodes[i].next)
  }

  /** Member `i` has a name equal to `key`, both read up to their first NUL. */
  predicate Matches(nodes: seq<Node>, i: nat, key: seq<byte>)
    requires i < |nodes| && nodes[i].Member?
  {
    nodes[i].name.Some? && CString(nodes[i].name.value) == CString(key)
  }

  /** The first member from `l` on that is unnamed or matches `key` stops the
      search: a match gives its value, an unnamed member the fault; without
      one the result is the null link. */
  function Find(nodes: seq<Node>, l: Link, key: seq<byte>): (r: Result<Link, Fault>)
    requires WellFormed(nodes) && AtMember(nodes, l)
    ensures l.Null? ==> r == Success(Null)
    ensures r.Success? ==> LinkIn(nodes, r.value)
    ensures r.Success? && r.value.To? ==> l.To? && l.index < r.value.index
    decreases Rank(nodes, l)
  {
    match l
    case Null => Success(Null)
    case To(i) =>
      NextMember(nodes, i);
      assert Edge(nodes, i, false) == nodes[i].value;
      if nodes[i].name.None? then Failure(UnnamedMember)
      else if Matches(nodes, i, key) then Success(nodes[i].value)
      else Find(nodes, nodes[i].next, key)
  }

  /** `Find` is decided by the first member of the chain that is unnamed or
      matches: passing over `k` named, non-matching members, it answers for
      member `k` or, past the last, with the null link. */
  lemma {:induction false} FindFirst(nodes: seq<Node>, l: Link, key: seq<byte>, k: nat)
    requires WellFormed(nodes) && AtMember(nodes, l)
    requires k <= |Members(nodes, l)|
    requires forall j :: 0 <= j < k ==> nodes[Members(nodes, l)[j]].name.Some? && !Matches(nodes, Members(nodes, l)[j], key)
    ensures var ms := Members(nodes, l);
      Find(nodes, l, key) ==
        if k == |ms| then Success(Null)
        else if nodes[ms[k]].name.None? then Failure(UnnamedMember)
        else if Matches(nodes, ms[k], key) then Success(nodes[ms[k]].value)
        else Find(nodes, To(ms[k]), key)
    decreases k
  {
    var ms := Members(nodes, l);
    if k > 0 {
      var i := l.index;
      NextMember(nodes, i);
      var rest := Members(nodes, nodes[i].next);
      assert ms == [i] + rest;
      assert forall j :: 0 <= j < k - 1 ==> rest[j] == ms[j + 1];
      FindFirst(nodes, nodes[i].next, key, k - 1);
    }
  }

  /** Member `ms[k]` matches `key`, and every member before it is named and
      does not. */
  predicate FirstMatchAt(nodes: seq<Node>, ms: seq<nat>, key: seq<byte>, k: nat)
    requires forall j :: 0 <= j < |ms| ==> ms[j] < |nodes| && nodes[ms[j]].Member?
  {
    && k < |ms| && Matches(nodes, ms[k], key)
    && forall j :: 0 <= j < k ==> nodes[ms[j]].name.Some? && !Matches(nodes, ms[j], key)
  }

  /** A value found belongs to the first matching member, member `k` of the
      chain. */
  lemma {:induction false} FoundIsFirst(nodes: seq<Node>, l: Link, key: seq<byte>) returns (k: nat)
    requires WellFormed(nodes) && AtMember(nodes, l)
    requires Find(nodes, l, key).Success? && Find(nodes, l, key).value.To?
    ensures FirstMatchAt(nodes, Members(nodes, l), key, k)
    ensures nodes[Members(nodes, l)[k]].value == Find(nodes, l, key).value
    decreases Rank(nodes, l)
  {
    var i := l.index;
    NextMember(nodes, i);
    var ms := Members(nodes, l);
    if !Matches(nodes, i, key) {
      var rest := Members(nodes, nodes[i].next);
      var j := FoundIsFirst(nodes, nodes[i].next, key);
      assert ms == [i] + rest;
      assert forall m :: 1 <= m < j + 1 ==> ms[m] == rest[m - 1];
      k := j + 1;
    } else {
      k := 0;
    }
  }

  /** With every member named and none matching, nothing is found. */
  lemma {:induction false} NoneMatch(nodes: seq<Node>, l: Link, key: seq<byte>)
    requires WellFormed(nodes) && AtMember(nodes, l)
    requires forall j :: 0 <= j < |Members(nodes, l)| ==>
      nodes[Members(nodes, l)[j]].name.Some? && !Matches(nodes, Members(nodes, l)[j], key)
    ensures Find(nodes, l, key) == Success(Null)
  {
    FindFirst(nodes, l, key, |Members(nodes, l)|);
  }

  /** `get_value` (json.c:749-755). */
  method GetValue(nodes: seq<Node>, key: seq<byte>, o: Link) returns (r: Result<Link, Fault>)
    requires WellFormed(nodes) && AtMember(nodes, o)
    ensures r == Find(nodes, o, key)
  {
    var p := o;
    while p.To?
      invariant AtMember(nodes, p)
      invariant Find(nodes, p, key) == Find(nodes, o, key)
      decreases Rank(nodes, p)
    {
      NextMember(nodes, p.index);
      var m := nodes[p.index];
      if m.name.None? {
        return Failure(UnnamedMember);
      }
      if CString(m.name.value) == CString(key) {
        return Success(m.value);
      }
      p := m.next;
    }
    return Success(Null);
  }

  /** What `get_string_first` answers: the first matching member's string, or
      nothing when that member's value is missing or not a string. */
  function StringOf(nodes: seq<Node>, o: Link, key: seq<byte>): (r: Result<Option<seq<byte>>, Fault>)
    requires WellFormed(nodes) && AtMember(nodes, o)
    ensures r.Failure? <==> Find(nodes, o, key).Failure?
    ensures r.Success? && r.value.Some? <==>
      Find(nodes, o, key).Success? && Find(nodes, o, key).value.To?
      && Find(nodes, o, key).value.index < |nodes|
      && nodes[Find(nodes, o, key).value.index].Value?
      && nodes[Find(nodes, o, key).value.index].payload.Str?
    ensures r.Success? && r.value.Some? ==> r.value.value == nodes[Find(nodes, o, key).value.index].payload.text
  {
    match Find(nodes, o, key)
    case Failure(f) => Failure(f)
    case Success(v) =>
      if v.To? && v.index < |nodes| && nodes[v.index].Value? && nodes[v.index].payload.Str?
      then Success(Some(nodes[v.index].payload.text))
      else Success(None)
  }

  /** When member `k` is the first match, `get_string_first` answers with its
      value's string, or with nothing when that value is not a string. */
  lemma StringOfFirstMatch(nodes: seq<Node>, o: Link, key: seq<byte>, k: nat)
    requires WellFormed(nodes) && AtMember(nodes, o)
    requires FirstMatchAt(nodes, Members(nodes, o), key, k)
    ensures var v := nodes[Members(nodes, o)[k]].value;
      StringOf(nodes, o, key) ==
        if v.To? && v.index < |nodes| && nodes[v.index].Value? && nodes[v.index].payload.Str?
        then Success(Some(nodes[v.index].payload.text))
        else Success(None)
  {
    FindFirst(nodes, o, key, k);
  }

  /** An unnamed member met before any match is the fault. */
  lemma StringOfUnnamed(nodes: seq<Node>, o: Link, key: seq<byte>, k: nat)
    requires WellFormed(nodes) && AtMember(nodes, o)
    requires k < |Members(nodes, o)| && nodes[Members(nodes, o)[k]].name.None?
    requires forall j :: 0 <= j < k ==> nodes[Members(nodes, o)[j]].name.Some? && !Matches(nodes, Members(nodes, o)[j], key)
    ensures StringOf(nodes, o, key) == Failure(UnnamedMember)
  {
    FindFirst(nodes, o, key, k);
  }

  /** With every member named and none matching, there is no string. */
  lemma StringOfNoMatch(nodes: seq<Node>, o: Link, key: seq<byte>)
    requires WellFormed(nodes) && AtMember(nodes, o)
    requires forall j :: 0 <= j < |Members(nodes, o)| ==>
      nodes[Members(nodes, o)[j]].name.Some? && !Matches(nodes, Members(nodes, o)[j], key)
    ensures StringOf(nodes, o, key) == Success(None)
  {
    NoneMatch(nodes, o, key);
  }

  /** `get_string_first` (json.c:757-766): the search stops at the first
      matching member even when its value is not a string. */
  method GetStringFirst(nodes: seq<Node>, key: seq<byte>, o: Link) returns (r: Result<Option<seq<byte>>, Fault>)
    requires WellFormed(nodes) && AtMember(nodes, o)
    ensures r == StringOf(nodes, o, key)
  {
    var p := o;
    while p.To?
      invariant AtMember(nodes, p)
      invariant Find(nodes, p, key) == Find(nodes, o, key)
      decreases Rank(nodes, p)
    {
      NextMember(nodes, p.index);
      var m := nodes[p.index];
      if m.name.None? {
        return Failure(UnnamedMember);
      }
      if CString(m.name.value) == CString(key) {
        if m.value.To? && m.value.index < |nodes| && nodes[m.value.index].Value? && nodes[m.value.index].payload.Str? {
          return Success(Some(nodes[m.value.index].payload.text));
        }
        return Success(None);
      }
      p := m.next;
    }
    return Success(None);
  }
}
