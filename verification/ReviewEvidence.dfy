/**
 What a capture still shows: everything that is neither hidden by its key nor beyond the limits is found
 at the same place, numbers and flags as they were, texts masked and cut.
 */
module ReviewEvidence {
  import opened Ordering
  import opened ReviewCapture

  /** One step into a value. */
  datatype Step = Key(key: string) | Index(i: nat)

  datatype Found = Nothing | Here(value: Json)

  function At(v: Json, path: seq<Step>): Found
    decreases |path|
  {
    if path == [] then Here(v)
    else match path[0]
      case Key(k) => if v.Obj? && k in v.fields then At(v.fields[k], path[1..]) else Nothing
      case Index(i) => if v.Arr? && i < |v.items| then At(v.items[i], path[1..]) else Nothing
  }

  /** The text, or its first characters and three dots when it is longer than `max`. */
  predicate IsCut(t: string, s: string, max: nat) {
    if |s| <= max then t == s else |t| == max + 3 && t[..max] == s[..max] && t[max..] == "..."
  }

  /** What is left of one value, looked at without going into it. */
  predicate Shown(rules: Rules, v: Json, r: Json) {
    match v
    case Null => r.Null?
    case Bool(b) => r == Bool(b)
    case Number(n) => r == Number(n)
    case Str(s) => r.Str? && if rules.mediaValue(s) then r.s == "[omitted media]" else IsCut(r.s, rules.mask(s), 512)
    case Arr(_) => r.Arr?
    case Obj(_) => r.Obj?
  }

  /** The keys that come before this one. */
  function Before(keys: set<string>, key: string): set<string> { set k | k in keys && Less(k, key) }

  /** Every step is to one of the first 40 keys, which hides nothing, or to one of the first 24 items. */
  ghost predicate Visible(rules: Rules, v: Json, path: seq<Step>)
    decreases |path|
  {
    path == [] || match path[0]
      case Key(k) =>
        && v.Obj? && k in v.fields && |Before(v.fields.Keys, k)| < 40
        && !rules.sensitive(k) && !rules.mediaKey(k) && Visible(rules, v.fields[k], path[1..])
      case Index(i) => v.Arr? && i < |v.items| && i < 24 && Visible(rules, v.items[i], path[1..])
  }

  /** A key with fewer than `n` before it is among the first `n`. */
  lemma EarlyKeyIsFirst(first: set<string>, keys: set<string>, n: nat, k: string)
    requires IsFirst(first, keys, n) && k in keys && |Before(keys, k)| < n
    ensures k in first
  {
    if k !in first {
      forall a | a in first ensures a in Before(keys, k) { assert Less(a, k); }
      Larger(first, Before(keys, k));
    }
  }

  lemma TextIsCut(s: string, max: nat)
    requires max > 0
    ensures IsCut(TruncateRunes(s, max), s, max)
  {
  }

  lemma ShownAtOnce(rules: Rules, v: Json, r: Json, room: nat)
    requires Captured(rules, v, r, room) && room > 0
    ensures Shown(rules, v, r)
  {
    if v.Str? { TextIsCut(rules.mask(v.s), MAX_STRING); }
  }

  lemma StepInside(rules: Rules, v: Json, r: Json, room: nat, step: Step)
    requires Captured(rules, v, r, room) && room > 0 && Visible(rules, v, [step])
    ensures step.Key? ==> r.Obj? && step.key in r.fields && Captured(rules, v.fields[step.key], r.fields[step.key], room - 1)
    ensures step.Index? ==> r.Arr? && step.i < |r.items| && Captured(rules, v.items[step.i], r.items[step.i], room - 1)
  {
    match step
    case Key(k) => EarlyKeyIsFirst(r.fields.Keys, v.fields.Keys, MAX_ENTRIES, k);
    case Index(_) =>
  }

  /** Down to the sixth level everything visible is shown at its place; what lies deeper is one marker. */
  lemma {:induction false} VisibleIsShown(rules: Rules, v: Json, r: Json, room: nat, path: seq<Step>)
    requires Captured(rules, v, r, room) && Visible(rules, v, path) && |path| <= room
    ensures At(v, path).Here? && At(r, path).Here?
    ensures if |path| < room then Shown(rules, At(v, path).value, At(r, path).value)
            else At(r, path).value == Str("[omitted nested value]")
    decreases |path|
  {
    if path == [] {
      if room > 0 { ShownAtOnce(rules, v, r, room); }
    } else {
      assert [path[0]][1..] == [];
      StepInside(rules, v, r, room, path[0]);
      match path[0]
      case Key(k) => VisibleIsShown(rules, v.fields[k], r.fields[k], room - 1, path[1..]);
      case Index(i) => VisibleIsShown(rules, v.items[i], r.items[i], room - 1, path[1..]);
    }
  }

  /** Under a sensitive or media key among the first 40 there is the marker, and nothing of the value. */
  lemma HiddenIsMarked(rules: Rules, v: Json, r: Json, room: nat, k: string)
    requires Captured(rules, v, r, room) && room > 0 && v.Obj? && k in v.fields && |Before(v.fields.Keys, k)| < 40
    ensures r.Obj? && k in r.fields
    ensures rules.sensitive(k) ==> r.fields[k] == Str("***")
    ensures !rules.sensitive(k) && rules.mediaKey(k) ==> r.fields[k] == Str("[omitted media]")
  {
    EarlyKeyIsFirst(r.fields.Keys, v.fields.Keys, MAX_ENTRIES, k);
  }

  /** A longer list shows 24 items and says that there were more. */
  lemma LongListIsMarked(rules: Rules, v: Json, r: Json, room: nat)
    requires Captured(rules, v, r, room) && room > 0 && v.Arr?
    ensures r.Arr? && (if |v.items| <= 24 then |r.items| == |v.items|
                       else |r.items| == 25 && r.items[24] == Str("[truncated]"))
  {
  }

  /** Depths count from the outermost value: six levels are looked into, and the seventh is a marker. */
  method RedactWhole(rules: Rules, v: Json) returns (r: Json)
    ensures forall path :: |path| <= 6 && Visible(rules, v, path) ==>
              && At(v, path).Here? && At(r, path).Here?
              && (|path| < 6 ==> Shown(rules, At(v, path).value, At(r, path).value))
              && (|path| == 6 ==> At(r, path).value == Str("[omitted nested value]"))
  {
    r := Redact(rules, v, 0);
    forall path | |path| <= 6 && Visible(rules, v, path)
      ensures At(v, path).Here? && At(r, path).Here?
      ensures |path| < 6 ==> Shown(rules, At(v, path).value, At(r, path).value)
      ensures |path| == 6 ==> At(r, path).value == Str("[omitted nested value]")
    {
      VisibleIsShown(rules, v, r, Room(0), path);
    }
  }

  // ---------------------------------------------------------------- headers

  /** A kept header value hides a sensitive one, marks media, and else is the masked value, cut. */
  lemma HeaderIsShown(rules: Rules, headers: Headers, out: Headers, n: nat, name: string, i: nat)
    requires CapturedHeaders(rules, headers, out, n) && name in headers && |Before(headers.Keys, name)| < n
    requires i < |headers[name]|
    ensures name in out && |out[name]| == (if |headers[name]| <= 4 then |headers[name]| else 4)
    ensures i < 4 ==>
              var kept, masked := out[name][i], rules.mask(headers[name][i]);
              if rules.sensitiveHeader(name) then kept == "***"
              else if rules.mediaValue(T.TrimSpace(masked)) then kept == "[omitted media]"
              else IsCut(kept, masked, 300)
  {
    EarlyKeyIsFirst(out.Keys, headers.Keys, n, name);
    assert CapturedValues(rules, name, headers[name], out[name]);
    if i < 4 {
      assert out[name][i] == CaptureValue(rules, name, headers[name][i]);
      TextIsCut(rules.mask(headers[name][i]), MAX_HEADER_STRING);
    }
  }
}
