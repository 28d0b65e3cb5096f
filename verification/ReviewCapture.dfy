/**
 The bounded copy of request evidence kept for a review: redaction of a decoded JSON value, and the
 headers cut to a byte budget. Masking, media detection and encoded size are parameters.
 */
module ReviewCapture {
  import opened Ordering
  import T = Text

  const MAX_DEPTH := 6
  const MAX_ENTRIES := 40
  const MAX_ITEMS := 24
  const MAX_STRING := 512
  const MAX_HEADERS := 40
  const MAX_VALUES := 4
  const MAX_HEADER_STRING := 300
  const MAX_HEADER_BYTES := 6144

  datatype Json = Null | Bool(b: bool) | Number(n: real) | Str(s: string)
                | Arr(items: seq<Json>) | Obj(fields: map<string, Json>)

  /** Which keys and values are sensitive or media, and how free text is masked. */
  datatype Rules = Rules(sensitive: string -> bool, sensitiveHeader: string -> bool, mediaKey: string -> bool,
                         mediaValue: string -> bool, mask: string -> string)

  function TruncateRunes(s: string, max: nat): string {
    if max == 0 then "" else if |s| <= max then s else s[..max] + "..."
  }

  // ---------------------------------------------------------------- the first keys in order

  /** `first` are the `n` least of the keys, or all of them when there are no more than `n`. */
  ghost predicate IsFirst(first: set<string>, keys: set<string>, n: nat) {
    && first <= keys && (|first| == n || first == keys) && |first| <= n
    && forall a, b :: a in first && b in keys - first ==> Less(a, b)
  }

  lemma FirstUnique(p: set<string>, q: set<string>, keys: set<string>, n: nat)
    requires IsFirst(p, keys, n) && IsFirst(q, keys, n)
    ensures p == q
  {
    if !(p <= q) {
      OneSided(q, p, keys, n);
    } else if !(q <= p) {
      OneSided(p, q, keys, n);
    }
  }

  /** Neither can hold a key the other lacks. */
  lemma OneSided(p: set<string>, q: set<string>, keys: set<string>, n: nat)
    requires IsFirst(p, keys, n) && IsFirst(q, keys, n)
    ensures q <= p
  {
    if x :| x in q && x !in p {
      assert |p| == n;
      if p <= q {
        assert p + {x} <= q;
        Larger(p + {x}, q);
      } else {
        var y :| y in p && y !in q;
        assert Less(y, x) && Less(x, y);
        LessTotal(x, y);
      }
      assert false;
    }
  }

  lemma Larger(a: set<string>, b: set<string>)
    requires a <= b
    ensures |a| <= |b|
  {
    assert b == a + (b - a);
  }

  lemma {:induction false} PrefixMembers(s: seq<string>, n: nat)
    requires n <= |s| && Ascending(s)
    ensures |Members(s[..n])| == n
  {
    if n > 0 {
      PrefixMembers(s, n - 1);
      assert s[..n] == s[..n - 1] + [s[n - 1]];
      assert Members(s[..n]) == Members(s[..n - 1]) + {s[n - 1]};
      if s[n - 1] in s[..n - 1] {
        var i :| 0 <= i < n - 1 && s[i] == s[n - 1];
        LessTotal(s[i], s[i]);
      }
    }
  }

  /** A prefix of the sorted keys is the set of the first ones. */
  lemma PrefixIsFirst(s: seq<string>, keys: set<string>, n: nat)
    requires Ascending(s) && Members(s) == keys
    ensures IsFirst(Members(s[..Min(n, |s|)]), keys, n)
  {
    var k := Min(n, |s|);
    var first := Members(s[..k]);
    PrefixMembers(s, k);
    assert s[..|s|] == s;
    forall x | x in first ensures x in keys { assert x in s; }
    forall a, b | a in first && b in keys - first ensures Less(a, b) {
      var i :| 0 <= i < k && s[i] == a;
      assert b in Members(s);
      var j :| 0 <= j < |s| && s[j] == b;
      assert j >= k by { assert forall m :: 0 <= m < k ==> s[m] in s[..k]; }
    }
  }

  function Min(a: nat, b: nat): nat { if a < b then a else b }

  // ---------------------------------------------------------------- redaction

  function RedactText(rules: Rules, s: string): Json {
    if rules.mediaValue(s) then Str("[omitted media]") else Str(TruncateRunes(rules.mask(s), MAX_STRING))
  }

  /** `r` is what may be kept of `v` with `room` levels of nesting left. */
  ghost predicate Captured(rules: Rules, v: Json, r: Json, room: nat)
    decreases room, 1
  {
    if room == 0 then r == Str("[omitted nested value]")
    else match v
      case Obj(fields) =>
        && r.Obj? && IsFirst(r.fields.Keys, fields.Keys, MAX_ENTRIES)
        && forall k :: k in r.fields ==> CapturedField(rules, k, fields[k], r.fields[k], room)
      case Arr(items) =>
        && r.Arr? && |r.items| == Min(MAX_ITEMS + 1, |items|)
        && (forall i :: 0 <= i < |r.items| && i < MAX_ITEMS ==> Captured(rules, items[i], r.items[i], room - 1))
        && (|items| > MAX_ITEMS ==> r.items[MAX_ITEMS] == Str("[truncated]"))
      case Str(s) => r == RedactText(rules, s)
      case _ => r == v
  }

  ghost predicate CapturedField(rules: Rules, key: string, v: Json, r: Json, room: nat)
    requires room > 0
    decreases room, 0
  {
    if rules.sensitive(key) then r == Str("***")
    else if rules.mediaKey(key) then r == Str("[omitted media]")
    else Captured(rules, v, r, room - 1)
  }

  /** Two values that differ only below sensitive or media keys, past the key or item limit, or too deep. */
  ghost predicate Agree(rules: Rules, v: Json, w: Json, room: nat)
    decreases room, 1
  {
    || room == 0 || v == w
    || (v.Obj? && w.Obj? && exists first :: AgreeOn(rules, v, w, first, room))
    || (v.Arr? && w.Arr? && Min(MAX_ITEMS + 1, |v.items|) == Min(MAX_ITEMS + 1, |w.items|)
        && forall i :: 0 <= i < |v.items| && i < MAX_ITEMS ==> Agree(rules, v.items[i], w.items[i], room - 1))
  }

  /** Both objects have the same first keys, and agree under those that are looked into. */
  ghost predicate AgreeOn(rules: Rules, v: Json, w: Json, first: set<string>, room: nat)
    requires v.Obj? && w.Obj? && room > 0
    decreases room, 0
  {
    && IsFirst(first, v.fields.Keys, MAX_ENTRIES) && IsFirst(first, w.fields.Keys, MAX_ENTRIES)
    && forall k :: k in first && !rules.sensitive(k) && !rules.mediaKey(k) ==>
         Agree(rules, v.fields[k], w.fields[k], room - 1)
  }

  lemma FirstAgree(rules: Rules, v: Json, w: Json, r: Json, q: Json, room: nat)
    requires Agree(rules, v, w, room) && room > 0 && v.Obj? && w.Obj?
    requires Captured(rules, v, r, room) && Captured(rules, w, q, room)
    ensures r.fields.Keys == q.fields.Keys && AgreeOn(rules, v, w, r.fields.Keys, room)
  {
    if v == w {
      FirstUnique(r.fields.Keys, q.fields.Keys, v.fields.Keys, MAX_ENTRIES);
    } else {
      var first :| AgreeOn(rules, v, w, first, room);
      FirstUnique(r.fields.Keys, first, v.fields.Keys, MAX_ENTRIES);
      FirstUnique(q.fields.Keys, first, w.fields.Keys, MAX_ENTRIES);
    }
  }

  /** What lies under a sensitive or media key, or beyond the limits, never reaches the capture. */
  lemma {:induction false} NothingLeaks(rules: Rules, v: Json, w: Json, r: Json, q: Json, room: nat)
    requires Agree(rules, v, w, room) && Captured(rules, v, r, room) && Captured(rules, w, q, room)
    ensures r == q
    decreases room
  {
    if room > 0 && v.Obj? {
      FirstAgree(rules, v, w, r, q, room);
      forall k | k in r.fields ensures r.fields[k] == q.fields[k] {
        if !rules.sensitive(k) && !rules.mediaKey(k) {
          NothingLeaks(rules, v.fields[k], w.fields[k], r.fields[k], q.fields[k], room - 1);
        }
      }
      assert r.fields == q.fields;
    } else if room > 0 && v.Arr? {
      forall i | 0 <= i < |r.items| ensures r.items[i] == q.items[i] {
        if i < MAX_ITEMS {
          NothingLeaks(rules, v.items[i], w.items[i], r.items[i], q.items[i], room - 1);
        }
      }
      assert r.items == q.items;
    }
  }

  /** A value has at most one capture. */
  lemma CaptureUnique(rules: Rules, v: Json, r: Json, q: Json, room: nat)
    requires Captured(rules, v, r, room) && Captured(rules, v, q, room)
    ensures r == q
  {
    NothingLeaks(rules, v, v, r, q, room);
  }

  /** At most `depth` levels of nesting, at most 40 keys and 25 items at every level. */
  ghost predicate Bounded(rules: Rules, r: Json, depth: nat)
    decreases depth
  {
    match r
    case Obj(fields) =>
      && depth > 0 && |fields.Keys| <= MAX_ENTRIES
      && forall k :: k in fields ==> Bounded(rules, fields[k], depth - 1) && MarkerKept(rules, k, fields[k])
    case Arr(items) =>
      && depth > 0 && |items| <= MAX_ITEMS + 1
      && forall i :: 0 <= i < |items| ==> Bounded(rules, items[i], depth - 1)
    case _ => true
  }

  ghost predicate MarkerKept(rules: Rules, key: string, v: Json) {
    && (rules.sensitive(key) ==> v == Str("***"))
    && (rules.mediaKey(key) && !rules.sensitive(key) ==> v == Str("[omitted media]"))
  }

  /** Every capture is bounded at every level, whatever the input was. */
  lemma {:induction false} CaptureBounded(rules: Rules, v: Json, r: Json, room: nat)
    requires Captured(rules, v, r, room)
    ensures Bounded(rules, r, room)
    decreases room
  {
    if room > 0 && v.Obj? {
      forall k | k in r.fields ensures Bounded(rules, r.fields[k], room - 1) {
        if !rules.sensitive(k) && !rules.mediaKey(k) {
          CaptureBounded(rules, v.fields[k], r.fields[k], room - 1);
        }
      }
    } else if room > 0 && v.Arr? {
      forall i | 0 <= i < |r.items| ensures Bounded(rules, r.items[i], room - 1) {
        if i < MAX_ITEMS { CaptureBounded(rules, v.items[i], r.items[i], room - 1); }
      }
    }
  }

  /** How many levels are left at `depth`. */
  function Room(depth: nat): nat { if depth >= MAX_DEPTH then 0 else MAX_DEPTH - depth }

  method Redact(rules: Rules, v: Json, depth: nat) returns (r: Json)
    ensures Captured(rules, v, r, Room(depth))
    decreases Room(depth), 2
  {
    if depth >= MAX_DEPTH { return Str("[omitted nested value]"); }
    match v {
      case Obj(fields) =>
        var out := RedactFields(rules, fields, depth);
        return Obj(out);
      case Arr(items) =>
        var out := RedactItems(rules, items, depth);
        return Arr(out);
      case Str(s) => return RedactText(rules, s);
      case _ => return v;
    }
  }

  ghost predicate AllCaptured(rules: Rules, fields: map<string, Json>, out: map<string, Json>, room: nat)
    requires room > 0
  {
    forall k :: k in out ==> k in fields && CapturedField(rules, k, fields[k], out[k], room)
  }

  method RedactField(rules: Rules, key: string, v: Json, depth: nat) returns (r: Json)
    requires depth < MAX_DEPTH
    ensures CapturedField(rules, key, v, r, Room(depth))
    decreases Room(depth), 0
  {
    if rules.sensitive(key) { return Str("***"); }
    if rules.mediaKey(key) { return Str("[omitted media]"); }
    r := Redact(rules, v, depth + 1);
  }

  method RedactFields(rules: Rules, fields: map<string, Json>, depth: nat) returns (out: map<string, Json>)
    requires depth < MAX_DEPTH
    ensures Captured(rules, Obj(fields), Obj(out), Room(depth))
    decreases Room(depth), 1
  {
    var keys := SortKeys(fields.Keys);
    out := map[];
    var i := 0;
    while i < |keys| && |out| < MAX_ENTRIES
      invariant 0 <= i <= |keys| && i <= MAX_ENTRIES
      invariant Filled(out.Keys, keys, i) && |out| == i
      invariant AllCaptured(rules, fields, out, Room(depth))
    {
      var key := keys[i];
      assert key in Members(keys);
      var value := RedactField(rules, key, fields[key], depth);
      Grow(out, keys, i, value);
      CapturedNext(rules, fields, out, key, value, Room(depth));
      out := out[key := value];
      i := i + 1;
    }
    FilledIsFirst(out.Keys, keys, fields.Keys, i, MAX_ENTRIES);
    FieldsCaptured(rules, fields, out, Room(depth));
  }

  lemma CapturedNext(rules: Rules, fields: map<string, Json>, out: map<string, Json>, key: string, value: Json, room: nat)
    requires room > 0 && AllCaptured(rules, fields, out, room)
    requires key in fields && CapturedField(rules, key, fields[key], value, room)
    ensures AllCaptured(rules, fields, out[key := value], room)
  {
  }

  lemma FieldsCaptured(rules: Rules, fields: map<string, Json>, out: map<string, Json>, room: nat)
    requires room > 0 && AllCaptured(rules, fields, out, room) && IsFirst(out.Keys, fields.Keys, MAX_ENTRIES)
    ensures Captured(rules, Obj(fields), Obj(out), room)
  {
  }

  /** The first `i` sorted keys are done. */
  ghost predicate Filled(done: set<string>, keys: seq<string>, i: nat) {
    i <= |keys| && done == Members(keys[..i])
  }

  lemma FilledIsFirst(done: set<string>, keys: seq<string>, all: set<string>, i: nat, max: nat)
    requires Ascending(keys) && Members(keys) == all && Filled(done, keys, i)
    requires i == Min(max, |keys|)
    ensures IsFirst(done, all, max) && |all| == |keys|
  {
    PrefixIsFirst(keys, all, max);
    PrefixMembers(keys, |keys|);
    assert keys[..|keys|] == keys;
  }

  lemma Grow<V>(out: map<string, V>, keys: seq<string>, i: nat, value: V)
    requires Ascending(keys) && i < |keys| && Filled(out.Keys, keys, i)
    ensures Filled(out[keys[i] := value].Keys, keys, i + 1) && |out[keys[i] := value]| == i + 1
  {
    PrefixMembers(keys, i + 1);
    assert keys[..i + 1] == keys[..i] + [keys[i]];
    var next := out[keys[i] := value];
    assert next.Keys == Members(keys[..i + 1]);
    assert |next| == |next.Keys|;
  }

  method RedactItems(rules: Rules, items: seq<Json>, depth: nat) returns (out: seq<Json>)
    requires depth < MAX_DEPTH
    ensures Captured(rules, Arr(items), Arr(out), Room(depth))
    decreases Room(depth), 0
  {
    var limit := if |items| > MAX_ITEMS then MAX_ITEMS else |items|;
    out := [];
    for i := 0 to limit
      invariant |out| == i
      invariant forall j :: 0 <= j < i ==> Captured(rules, items[j], out[j], Room(depth) - 1)
    {
      var item := Redact(rules, items[i], depth + 1);
      out := out + [item];
    }
    if |items| > limit { out := out + [Str("[truncated]")]; }
  }

  // ---------------------------------------------------------------- headers

  type Headers = map<string, seq<string>>

  function CaptureValue(rules: Rules, key: string, value: string): string {
    if rules.sensitiveHeader(key) then "***"
    else if rules.mediaValue(T.TrimSpace(rules.mask(value))) then "[omitted media]"
    else TruncateRunes(rules.mask(value), MAX_HEADER_STRING)
  }

  /** `kept` are the first values of a header, each redacted. */
  ghost predicate CapturedValues(rules: Rules, key: string, values: seq<string>, kept: seq<string>) {
    && |kept| == Min(MAX_VALUES, |values|)
    && forall i :: 0 <= i < |kept| ==> kept[i] == CaptureValue(rules, key, values[i])
  }

  /** `out` are the `n` least header names, each with its captured values. */
  ghost predicate CapturedHeaders(rules: Rules, headers: Headers, out: Headers, n: nat) {
    && IsFirst(out.Keys, headers.Keys, n)
    && forall k :: k in out ==> CapturedValues(rules, k, headers[k], out[k])
  }

  lemma CapturedHeadersUnique(rules: Rules, headers: Headers, a: Headers, b: Headers, n: nat)
    requires CapturedHeaders(rules, headers, a, n) && CapturedHeaders(rules, headers, b, n)
    ensures a == b
  {
    FirstUnique(a.Keys, b.Keys, headers.Keys, n);
    forall k | k in a ensures a[k] == b[k] {
      assert k in b.Keys;
      assert |a[k]| == |b[k]|;
    }
  }

  /** Fewer names of the same capture: what is left after the greatest one goes. */
  lemma DropGreatest(rules: Rules, headers: Headers, out: Headers, n: nat, last: string)
    requires CapturedHeaders(rules, headers, out, n) && |out| == n > 0
    requires last in out && forall k :: k in out ==> k == last || Less(k, last)
    ensures CapturedHeaders(rules, headers, out - {last}, n - 1) && |out - {last}| == n - 1
  {
    var less := out - {last};
    assert less.Keys == out.Keys - {last};
    assert |out.Keys| == n;
    forall a, b | a in less.Keys && b in headers.Keys - less.Keys ensures Less(a, b) {
      if b != last { assert b in headers.Keys - out.Keys; }
    }
  }

  method Greatest(out: Headers) returns (last: string)
    requires out.Keys != {}
    ensures last in out && forall k :: k in out ==> k == last || Less(k, last)
  {
    last := "";
    var rest := out.Keys;
    while rest != {}
      invariant rest <= out.Keys
      invariant forall k :: k in out && k !in rest ==> k == last || Less(k, last)
      invariant (last in out && last !in rest) || (last == "" && rest == out.Keys)
      decreases rest
    {
      var key :| key in rest;
      ghost var before := last;
      LessTotal(key, last);
      if Less(last, key) { last := key; }
      rest := rest - {key};
      forall k | k in out && k !in rest ensures k == last || Less(k, last) {
        if k != key && Less(k, before) && before != last { LessTransitive(k, before, last); }
      }
    }
  }

  method CaptureValues(rules: Rules, key: string, values: seq<string>) returns (kept: seq<string>)
    ensures CapturedValues(rules, key, values, kept)
  {
    var limit := if |values| > MAX_VALUES then MAX_VALUES else |values|;
    kept := [];
    for i := 0 to limit
      invariant |kept| == i
      invariant forall j :: 0 <= j < i ==> kept[j] == CaptureValue(rules, key, values[j])
    {
      if rules.sensitiveHeader(key) {
        kept := kept + ["***"];
      } else {
        var masked := rules.mask(values[i]);
        if rules.mediaValue(T.TrimSpace(masked)) {
          kept := kept + ["[omitted media]"];
        } else {
          kept := kept + [TruncateRunes(masked, MAX_HEADER_STRING)];
        }
      }
    }
  }

  method CopyHeaders(rules: Rules, headers: Headers) returns (out: Headers)
    ensures CapturedHeaders(rules, headers, out, Min(MAX_HEADERS, |headers|)) && |out| == Min(MAX_HEADERS, |headers|)
  {
    var keys := SortKeys(headers.Keys);
    out := map[];
    var i := 0;
    while i < |keys| && |out| < MAX_HEADERS
      invariant 0 <= i <= |keys| && i <= MAX_HEADERS
      invariant Filled(out.Keys, keys, i) && |out| == i
      invariant AllHeaders(rules, headers, out)
    {
      var key := keys[i];
      assert key in Members(keys);
      var copied := CaptureValues(rules, key, headers[key]);
      Grow(out, keys, i, copied);
      out := out[key := copied];
      i := i + 1;
    }
    FilledIsFirst(out.Keys, keys, headers.Keys, i, MAX_HEADERS);
    assert |headers| == |headers.Keys|;
  }

  ghost predicate AllHeaders(rules: Rules, headers: Headers, out: Headers) {
    forall k :: k in out ==> k in headers && CapturedValues(rules, k, headers[k], out[k])
  }

  /** No longer run of the first names, up to `top`, fits the budget. */
  ghost predicate LongerOverflows(rules: Rules, headers: Headers, size: Headers -> nat, n: nat, top: nat) {
    forall m, other :: n < m <= top && CapturedHeaders(rules, headers, other, m) ==> size(other) > MAX_HEADER_BYTES
  }

  /**
   The kept headers are the captures of the first names in order, at most 40: the longest such run that
   fits the byte budget, or none when none does.
   */
  method RedactHeaders(rules: Rules, headers: Headers, size: Headers -> nat) returns (out: Headers)
    ensures |out| <= Min(MAX_HEADERS, |headers|) && CapturedHeaders(rules, headers, out, |out|)
    ensures out == map[] || size(out) <= MAX_HEADER_BYTES
    ensures LongerOverflows(rules, headers, size, |out|, Min(MAX_HEADERS, |headers|))
  {
    out := CopyHeaders(rules, headers);
    while |out| > 0
      invariant |out| <= Min(MAX_HEADERS, |headers|)
      invariant CapturedHeaders(rules, headers, out, |out|)
      invariant LongerOverflows(rules, headers, size, |out|, Min(MAX_HEADERS, |headers|))
      decreases |out|
    {
      if size(out) <= MAX_HEADER_BYTES { break; }
      assert out.Keys != {};
      var last := Greatest(out);
      DropGreatest(rules, headers, out, |out|, last);
      forall m, other | |out| - 1 < m <= Min(MAX_HEADERS, |headers|) && CapturedHeaders(rules, headers, other, m)
        ensures size(other) > MAX_HEADER_BYTES
      {
        if m == |out| { CapturedHeadersUnique(rules, headers, out, other, m); }
      }
      out := out - {last};
    }
  }
}
