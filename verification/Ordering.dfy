/** The order `sort.Strings` sorts by, and sorted enumerations of a set of strings. */
module Ordering {

  predicate Less(a: string, b: string) {
    if b == [] then false
    else if a == [] then true
    else a[0] < b[0] || (a[0] == b[0] && Less(a[1..], b[1..]))
  }

  lemma {:induction false} LessTotal(a: string, b: string)
    ensures Less(a, b) || a == b || Less(b, a)
    ensures !(Less(a, b) && Less(b, a))
    ensures !Less(a, a)
  {
    if a != [] && b != [] {
      LessTotal(a[1..], b[1..]);
      if a[0] == b[0] && a[1..] == b[1..] { assert a == [a[0]] + a[1..] == b; }
    }
    if a != [] { LessTotal(a[1..], a[1..]); }
  }

  lemma {:induction false} LessTransitive(a: string, b: string, c: string)
    requires Less(a, b) && Less(b, c)
    ensures Less(a, c)
  {
    if a != [] && a[0] == b[0] == c[0] { LessTransitive(a[1..], b[1..], c[1..]); }
  }

  ghost predicate Ascending(s: seq<string>) { forall i, j :: 0 <= i < j < |s| ==> Less(s[i], s[j]) }

  function Members(s: seq<string>): set<string> { set x | x in s }

  /** Puts a new key in its place. */
  function Insert(s: seq<string>, x: string): seq<string> {
    if s == [] || Less(x, s[0]) then [x] + s else [s[0]] + Insert(s[1..], x)
  }

  lemma {:induction false} InsertAscending(s: seq<string>, x: string)
    requires Ascending(s) && x !in s
    ensures Ascending(Insert(s, x)) && Members(Insert(s, x)) == Members(s) + {x}
  {
    if s == [] {
    } else if Less(x, s[0]) {
      forall j | 0 <= j < |s| ensures Less(x, s[j]) {
        if j > 0 { LessTransitive(x, s[0], s[j]); }
      }
    } else {
      LessTotal(x, s[0]);
      InsertAscending(s[1..], x);
      var rest := Insert(s[1..], x);
      assert Members(s) == {s[0]} + Members(s[1..]);
      forall j | 0 <= j < |rest| ensures Less(s[0], rest[j]) {
        assert rest[j] in Members(rest);
      }
    }
  }

  method SortKeys(keys: set<string>) returns (sorted: seq<string>)
    ensures Ascending(sorted) && Members(sorted) == keys
  {
    sorted := [];
    var todo := keys;
    while todo != {}
      invariant todo <= keys && Ascending(sorted) && Members(sorted) == keys - todo
    {
      var x :| x in todo;
      todo := todo - {x};
      assert x !in Members(sorted);
      InsertAscending(sorted, x);
      sorted := Insert(sorted, x);
    }
  }

  lemma {:induction false} AscendingTail(s: seq<string>)
    requires s != [] && Ascending(s)
    ensures Ascending(s[1..]) && Members(s[1..]) == Members(s) - {s[0]}
  {
    forall x | x in s[1..] ensures x != s[0] {
      var i :| 0 <= i < |s[1..]| && s[1..][i] == x;
      assert Less(s[0], s[i + 1]);
      LessTotal(s[0], s[0]);
    }
    assert s == [s[0]] + s[1..];
  }

  lemma MembersEmpty(s: seq<string>)
    ensures s == [] <==> Members(s) == {}
  {
    if s != [] { assert s[0] in Members(s); }
  }

  /** A set has one sorted enumeration. */
  lemma {:induction false} AscendingUnique(a: seq<string>, b: seq<string>)
    requires Ascending(a) && Ascending(b) && Members(a) == Members(b)
    ensures a == b
  {
    MembersEmpty(a);
    MembersEmpty(b);
    if a != [] {
      assert a[0] in Members(b) && b[0] in Members(a);
      LessTotal(a[0], b[0]);
      assert a[0] == b[0];
      AscendingTail(a);
      AscendingTail(b);
      AscendingUnique(a[1..], b[1..]);
    }
  }
}
