/**
 The few string operations the models rest on: trimming, splitting and joining on one separator,
 and filtering of lists. Strings are sequences of Unicode scalar values.
 */
module Text {

  // ---------------------------------------------------------------- trimming

  /** Unicode White_Space, the set `strings.TrimSpace` uses. */
  predicate IsSpace(c: char) {
    || c in "\t\n\r " || c == '\U{0B}' || c == '\U{0C}' || c == '\U{85}' || c == '\U{A0}'
    || c == '\U{1680}' || '\U{2000}' <= c <= '\U{200A}' || c == '\U{2028}' || c == '\U{2029}'
    || c == '\U{202F}' || c == '\U{205F}' || c == '\U{3000}'
  }

  function TrimLeft(s: string, cut: char -> bool): string {
    if s != [] && cut(s[0]) then TrimLeft(s[1..], cut) else s
  }

  function TrimRight(s: string, cut: char -> bool): string {
    if s != [] && cut(s[|s| - 1]) then TrimRight(s[..|s| - 1], cut) else s
  }

  function Trim(s: string, cut: char -> bool): string { TrimRight(TrimLeft(s, cut), cut) }

  function TrimSpace(s: string): string { Trim(s, IsSpace) }

  /** Nothing left to trim at either end. */
  predicate Trimmed(s: string, cut: char -> bool) {
    s == [] || (!cut(s[0]) && !cut(s[|s| - 1]))
  }

  lemma {:induction false} TrimRightTrims(s: string, cut: char -> bool)
    ensures var t := TrimRight(s, cut);
            && |t| <= |s| && t == s[..|t|]
            && (t == [] || !cut(t[|t| - 1]))
  {
    if s != [] && cut(s[|s| - 1]) { TrimRightTrims(s[..|s| - 1], cut); }
  }

  lemma {:induction false} TrimLeftTrims(s: string, cut: char -> bool)
    ensures TrimLeft(s, cut) == [] || !cut(TrimLeft(s, cut)[0])
  {
    if s != [] && cut(s[0]) { TrimLeftTrims(s[1..], cut); }
  }

  /** Trimming leaves nothing to trim, and leaves a trimmed string alone. */
  lemma TrimTrims(s: string, cut: char -> bool)
    ensures Trimmed(Trim(s, cut), cut)
    ensures Trimmed(s, cut) ==> Trim(s, cut) == s
  {
    TrimLeftTrims(s, cut);
    TrimRightTrims(TrimLeft(s, cut), cut);
  }

  // ---------------------------------------------------------------- splitting and joining

  function Split(s: string, sep: char): (parts: seq<string>)
    ensures |parts| >= 1
  {
    if s == [] then [[]]
    else
      var rest := Split(s[1..], sep);
      if s[0] == sep then [[]] + rest else [[s[0]] + rest[0]] + rest[1..]
  }

  function Join(parts: seq<string>, sep: char): string {
    if |parts| == 0 then []
    else if |parts| == 1 then parts[0]
    else parts[0] + [sep] + Join(parts[1..], sep)
  }

  /** How a list is read back from its stored string: trim the separators, then split. */
  function Fields(s: string, sep: char): seq<string> {
    if s == [] then [] else Split(Trim(s, c => c == sep), sep)
  }

  predicate Plain(part: string, sep: char) { part != [] && sep !in part }

  lemma {:induction false} SplitFirst(a: string, rest: string, sep: char)
    requires sep !in a
    ensures Split(a + [sep] + rest, sep) == [a] + Split(rest, sep)
    ensures Split(a, sep) == [a]
  {
    var s := a + [sep] + rest;
    if a == [] {
      assert s[1..] == rest;
    } else {
      SplitFirst(a[1..], rest, sep);
      assert s[1..] == a[1..] + [sep] + rest;
      assert a == [a[0]] + a[1..];
    }
  }

  lemma {:induction false} SplitJoin(parts: seq<string>, sep: char)
    requires parts != [] && forall i :: 0 <= i < |parts| ==> sep !in parts[i]
    ensures Split(Join(parts, sep), sep) == parts
  {
    if |parts| == 1 {
      SplitFirst(parts[0], [], sep);
    } else {
      SplitJoin(parts[1..], sep);
      SplitFirst(parts[0], Join(parts[1..], sep), sep);
    }
  }

  lemma {:induction false} JoinEnds(parts: seq<string>, sep: char)
    requires parts != [] && forall i :: 0 <= i < |parts| ==> Plain(parts[i], sep)
    ensures var s := Join(parts, sep); s != [] && s[0] != sep && s[|s| - 1] != sep
  {
    if |parts| > 1 { JoinEnds(parts[1..], sep); }
  }

  /** A list of plain parts survives being stored and read back. */
  lemma FieldsOfJoin(parts: seq<string>, sep: char)
    requires forall i :: 0 <= i < |parts| ==> Plain(parts[i], sep)
    ensures Fields(Join(parts, sep), sep) == parts
  {
    if parts != [] {
      JoinEnds(parts, sep);
      TrimTrims(Join(parts, sep), c => c == sep);
      SplitJoin(parts, sep);
    }
  }

  /** Whatever is read back contains no separator. */
  lemma {:induction false} SplitParts(s: string, sep: char)
    ensures forall i :: 0 <= i < |Split(s, sep)| ==> sep !in Split(s, sep)[i]
  {
    if s != [] { SplitParts(s[1..], sep); }
  }

  // ---------------------------------------------------------------- filtering

  /** The elements of `s` that lie in `wanted`, in their order. */
  function Keep<T(==)>(s: seq<T>, wanted: set<T>): seq<T> {
    if s == [] then []
    else
      var rest := Keep(s[..|s| - 1], wanted);
      if s[|s| - 1] in wanted then rest + [s[|s| - 1]] else rest
  }

  ghost predicate Distinct<T>(s: seq<T>) { forall i, j :: 0 <= i < j < |s| ==> s[i] != s[j] }

  lemma DistinctConcat<T>(a: seq<T>, b: seq<T>)
    requires Distinct(a) && Distinct(b) && forall x :: x in a ==> x !in b
    ensures Distinct(a + b)
  {
    forall i, j | 0 <= i < j < |a + b| ensures (a + b)[i] != (a + b)[j] {
      if i < |a| <= j { assert a[i] in a && b[j - |a|] in b; }
    }
  }

  lemma {:induction false} KeepMembers<T>(s: seq<T>, wanted: set<T>)
    ensures forall x :: x in Keep(s, wanted) <==> x in s && x in wanted
    ensures Distinct(s) ==> Distinct(Keep(s, wanted))
  {
    if s != [] {
      var init := s[..|s| - 1];
      KeepMembers(init, wanted);
      assert s == init + [s[|s| - 1]];
    }
  }

  /** One more element of a list without repetitions. */
  lemma KeepNext<T>(s: seq<T>, i: nat, wanted: set<T>)
    requires i < |s|
    ensures Keep(s[..i + 1], wanted) == Keep(s[..i], wanted) + if s[i] in wanted then [s[i]] else []
    ensures Distinct(s) ==> s[i] !in s[..i]
    ensures forall x :: x in s[..i + 1] <==> x in s[..i] || x == s[i]
  {
    assert s[..i + 1] == s[..i] + [s[i]];
    assert s[..i + 1][..i] == s[..i];
  }

  lemma {:induction false} KeepAgree<T>(s: seq<T>, a: set<T>, b: set<T>)
    requires forall x :: x in s ==> (x in a <==> x in b)
    ensures Keep(s, a) == Keep(s, b)
  {
    if s != [] { KeepAgree(s[..|s| - 1], a, b); }
  }

  lemma {:induction false} KeepTwice<T>(s: seq<T>, a: set<T>, b: set<T>)
    ensures Keep(Keep(s, a), b) == Keep(s, a * b)
  {
    if s != [] { KeepTwice(s[..|s| - 1], a, b); }
  }

  lemma {:induction false} KeepConcat<T>(a: seq<T>, b: seq<T>, wanted: set<T>)
    ensures Keep(a + b, wanted) == Keep(a, wanted) + Keep(b, wanted)
  {
    if b == [] {
      assert a + b == a;
    } else {
      assert (a + b)[..|a + b| - 1] == a + b[..|b| - 1];
      KeepConcat(a, b[..|b| - 1], wanted);
    }
  }

  lemma {:induction false} KeepAll<T>(s: seq<T>, wanted: set<T>)
    requires forall x :: x in s ==> x in wanted
    ensures Keep(s, wanted) == s
  {
    if s != [] { KeepAll(s[..|s| - 1], wanted); }
  }

  lemma {:induction false} KeepNone<T>(s: seq<T>, wanted: set<T>)
    requires forall x :: x in s ==> x !in wanted
    ensures Keep(s, wanted) == []
  {
    if s != [] { KeepNone(s[..|s| - 1], wanted); }
  }
}
