/** The `key=value;` strings of the Bluetooth audio HAL: ParseAudioParams
    (system/audio_bluetooth_hw/utils.cc) and the loop that prints parameters
    (system/audio_bluetooth_hw/stream_apis.cc). */
module AudioParams {
  import opened Entries

  // ----- splitting

  /** android::base::Split on one delimiter: at least one piece, possibly empty. */
  function Split(s: string, d: char): (r: seq<string>)
    ensures |r| >= 1
  {
    if s == "" then [""] else Prepend(s[0], d, Split(s[1..], d))
  }

  function Prepend(c: char, d: char, pieces: seq<string>): (r: seq<string>)
    requires |pieces| >= 1
    ensures |r| >= 1
  {
    if c == d then [""] + pieces else [[c] + pieces[0]] + pieces[1..]
  }

  lemma PrependAppend(c: char, d: char, a: seq<string>, b: seq<string>)
    requires |a| >= 1
    ensures Prepend(c, d, a + b) == Prepend(c, d, a) + b
  {
    assert (a + b)[1..] == a[1..] + b;
  }

  function Join(pieces: seq<string>, d: char): string
    requires |pieces| >= 1
  {
    if |pieces| == 1 then pieces[0] else pieces[0] + [d] + Join(pieces[1..], d)
  }

  /** The pieces are free of the delimiter and, joined by it, give the string back. */
  lemma {:induction false} SplitMeaning(s: string, d: char)
    ensures Join(Split(s, d), d) == s
    ensures forall i :: 0 <= i < |Split(s, d)| ==> d !in Split(s, d)[i]
  {
    if s != "" {
      var rest := Split(s[1..], d);
      SplitMeaning(s[1..], d);
      assert Split(s, d) == Prepend(s[0], d, rest);
      hide Split;
      if s[0] == d {
        assert ([""] + rest)[1..] == rest;
        assert s == [d] + s[1..];
      } else {
        var r := [[s[0]] + rest[0]] + rest[1..];
        assert r[1..] == rest[1..];
        assert s == [s[0]] + s[1..];
      }
    }
  }

  /** Splitting introduces no characters. */
  lemma {:induction false} SplitChars(s: string, d: char, i: nat, c: char)
    requires i < |Split(s, d)| && c in Split(s, d)[i]
    ensures c in s
  {
    if s != "" {
      var rest := Split(s[1..], d);
      if s[0] == d {
        SplitChars(s[1..], d, i - 1, c);
      } else if i > 0 || c != s[0] {
        SplitChars(s[1..], d, i, c);
      }
    }
  }

  lemma {:induction false} SplitJoined(a: string, d: char, b: string)
    ensures Split(a + [d] + b, d) == Split(a, d) + Split(b, d)
  {
    if a == "" {
      assert ([d] + b)[1..] == b;
      assert a + [d] + b == [d] + b;
    } else {
      SplitJoined(a[1..], d, b);
      var s := a + [d] + b;
      assert s[0] == a[0] && s[1..] == a[1..] + [d] + b;
      PrependAppend(a[0], d, Split(a[1..], d), Split(b, d));
    }
  }

  lemma {:induction false} SplitWhole(s: string, d: char)
    requires d !in s
    ensures Split(s, d) == [s]
  {
    if s != "" {
      SplitWhole(s[1..], d);
      assert [s[0]] + s[1..] == s;
    }
  }

  // ----- parsing

  /** One turn of the loop: empty segments and segments with an empty key change nothing; what
      follows a second `=` is dropped. */
  function ParseSegment(m: map<string, string>, segment: string): map<string, string> {
    if segment == "" then m
    else
      var kv := Split(segment, '=');
      if kv[0] == "" then m else m[kv[0] := if |kv| > 1 then kv[1] else ""]
  }

  function ParseSegments(m: map<string, string>, segments: seq<string>): map<string, string>
    decreases |segments|
  {
    if segments == [] then m else ParseSegments(ParseSegment(m, segments[0]), segments[1..])
  }

  function Parse(params: string): map<string, string> {
    ParseSegments(map[], Split(params, ';'))
  }

  method ParseAudioParams(params: string) returns (paramsMap: map<string, string>)
    ensures paramsMap == Parse(params)
  {
    var segments := Split(params, ';');
    paramsMap := map[];
    for i := 0 to |segments|
      invariant ParseSegments(paramsMap, segments[i..]) == Parse(params)
    {
      var segment := segments[i];
      assert segments[i..][1..] == segments[i + 1..];
      if |segment| == 0 {
        continue;
      }
      var kv := Split(segment, '=');
      if kv[0] == "" {
        continue;
      }
      paramsMap := paramsMap[kv[0] := if |kv| > 1 then kv[1] else ""];
    }
  }

  lemma ParseSegmentOverrides(m: map<string, string>, segment: string)
    ensures ParseSegment(m, segment) == m + ParseSegment(map[], segment)
  {
  }

  lemma {:induction false} ParseSegmentsOverride(m: map<string, string>, segments: seq<string>)
    ensures ParseSegments(m, segments) == m + ParseSegments(map[], segments)
    decreases |segments|
  {
    if segments != [] {
      hide ParseSegment;
      var first := ParseSegment(map[], segments[0]);
      ParseSegmentOverrides(m, segments[0]);
      ParseSegmentsOverride(m + first, segments[1..]);
      ParseSegmentsOverride(first, segments[1..]);
      var rest := ParseSegments(map[], segments[1..]);
      assert (m + first) + rest == m + (first + rest);
    }
  }

  lemma {:induction false} ParseSegmentsAppend(m: map<string, string>, a: seq<string>, b: seq<string>)
    ensures ParseSegments(m, a + b) == ParseSegments(ParseSegments(m, a), b)
    decreases |a|
  {
    if a == [] {
      assert a + b == b;
    } else {
      ParseSegmentsAppend(ParseSegment(m, a[0]), a[1..], b);
      assert (a + b)[1..] == a[1..] + b;
    }
  }

  /** Parsing two strings joined by `;` is parsing both, the second overriding the first. */
  lemma ParseJoined(a: string, b: string)
    ensures Parse(a + ";" + b) == Parse(a) + Parse(b)
  {
    SplitJoined(a, ';', b);
    ParseSegmentsAppend(map[], Split(a, ';'), Split(b, ';'));
    ParseSegmentsOverride(Parse(a), Split(b, ';'));
  }

  // ----- printing

  type Param = Entry<string, string>

  /** The parameters in the order in which the hash map yields them. */
  function Print(params: seq<Param>): string {
    if params == [] then "" else params[0].key + "=" + params[0].value + ";" + Print(params[1..])
  }

  method PrintParameters(params: seq<Param>) returns (result: string)
    ensures result == Print(params)
  {
    result := "";
    for i := 0 to |params|
      invariant result + Print(params[i..]) == Print(params)
    {
      var p := params[i];
      assert params[i..][1..] == params[i + 1..];
      ghost var rest := Print(params[i + 1..]);
      assert (result + (p.key + "=" + p.value + ";")) + rest == result + (p.key + "=" + p.value + ";" + rest);
      result := result + (p.key + "=" + p.value + ";");
    }
  }

  /** The printed form of each parameter, one after the other. */
  lemma {:induction false} PrintJoins(a: seq<Param>, b: seq<Param>, p: Param)
    ensures Print([p]) == p.key + "=" + p.value + ";"
    ensures Print(a + b) == Print(a) + Print(b)
  {
    assert [p][1..] == [] && Print([]) == "";
    if a == [] {
      assert a + b == b;
    } else {
      PrintJoins(a[1..], b, p);
      assert (a + b)[1..] == a[1..] + b;
    }
  }

  /** What the header demands of keys and values, and a key that is not empty. */
  predicate Clean(p: Param) {
    && p.key != ""
    && ';' !in p.key && '=' !in p.key
    && ';' !in p.value && '=' !in p.value
  }

  lemma ParseOne(p: Param)
    requires Clean(p)
    ensures Parse(p.key + "=" + p.value) == map[p.key := p.value]
  {
    var segment := p.key + "=" + p.value;
    assert segment[|p.key|] == '=';
    SplitWhole(segment, ';');
    SplitJoined(p.key, '=', p.value);
    SplitWhole(p.key, '=');
    SplitWhole(p.value, '=');
    assert Split(segment, '=') == [p.key, p.value];
    assert ParseSegments(ParseSegment(map[], segment), []) == ParseSegment(map[], segment);
  }

  /** A key without a value stands for the empty value. */
  lemma ParseKeyAlone(key: string)
    requires key != "" && ';' !in key && '=' !in key
    ensures Parse(key) == map[key := ""]
  {
    SplitWhole(key, ';');
    SplitWhole(key, '=');
    assert ParseSegments(ParseSegment(map[], key), []) == ParseSegment(map[], key);
  }

  /** What follows a second `=` is dropped. */
  lemma ParseDropsRest(p: Param, rest: string)
    requires Clean(p) && ';' !in rest
    ensures Parse(p.key + "=" + p.value + "=" + rest) == map[p.key := p.value]
  {
    var segment := p.key + "=" + p.value + "=" + rest;
    SplitWhole(segment, ';');
    SplitJoined(p.key + "=" + p.value, '=', rest);
    SplitJoined(p.key, '=', p.value);
    SplitWhole(p.key, '=');
    SplitWhole(p.value, '=');
    assert Split(segment, '=') == [p.key, p.value] + Split(rest, '=');
    assert segment[|p.key|] == '=';
    assert ParseSegments(ParseSegment(map[], segment), []) == ParseSegment(map[], segment);
  }

  /** A segment whose key is empty, and an empty segment, say nothing. */
  lemma ParseWithoutKey(rest: string)
    requires ';' !in rest
    ensures Parse("=" + rest) == map[] && Parse("") == map[]
  {
    SplitWhole("=" + rest, ';');
    SplitJoined("", '=', rest);
    assert "" + ['='] + rest == "=" + rest;
    assert ParseSegments(ParseSegment(map[], "=" + rest), []) == map[];
    assert ParseSegments(ParseSegment(map[], ""), []) == map[];
  }

  lemma {:induction false} PrintedParses(params: seq<Param>)
    requires DistinctKeys(params) && forall i :: 0 <= i < |params| ==> Clean(params[i])
    ensures Parse(Print(params)) == ToMap(params)
  {
    if params == [] {
      assert ParseSegments(ParseSegment(map[], ""), []) == map[];
    } else {
      var p := params[0];
      assert Clean(p);
      PrintedParses(params[1..]);
      ParseOne(p);
      ParseJoined(p.key + "=" + p.value, Print(params[1..]));
      assert Index(params[1..], p.key) == |params| - 1;
    }
  }

  // ----- the exact domain of the round trip

  lemma ParseSegmentClean(m: map<string, string>, segment: string, k: string)
    requires ';' !in segment
    requires k in ParseSegment(m, segment) && !(k in m && m[k] == ParseSegment(m, segment)[k])
    ensures Clean(Entry(k, ParseSegment(m, segment)[k]))
  {
    var kv := Split(segment, '=');
    SplitMeaning(segment, '=');
    if ';' in kv[0] {
      SplitChars(segment, '=', 0, ';');
    }
    if |kv| > 1 && ';' in kv[1] {
      SplitChars(segment, '=', 1, ';');
    }
  }

  lemma {:induction false} ParseSegmentsClean(m: map<string, string>, segments: seq<string>, k: string)
    requires forall i :: 0 <= i < |segments| ==> ';' !in segments[i]
    requires k in ParseSegments(m, segments)
    ensures Clean(Entry(k, ParseSegments(m, segments)[k])) ||
            (k in m && m[k] == ParseSegments(m, segments)[k])
    decreases |segments|
  {
    hide Clean, ParseSegment;
    if segments != [] {
      var m1 := ParseSegment(m, segments[0]);
      ParseSegmentsClean(m1, segments[1..], k);
      if k in m1 && !(k in m && m[k] == m1[k]) {
        ParseSegmentClean(m, segments[0], k);
      }
    }
  }

  /** Parsing never yields an empty key, nor a key or value with a delimiter in it. */
  lemma ParseYieldsClean(params: string, k: string)
    requires k in Parse(params)
    ensures Clean(Entry(k, Parse(params)[k]))
  {
    SplitMeaning(params, ';');
    ParseSegmentsClean(map[], Split(params, ';'), k);
  }

  /** Parsing what was printed gives the map back, in whatever order it was printed, exactly when no
      key is empty and no key or value contains a delimiter. */
  lemma RoundTripIff(params: seq<Param>)
    requires DistinctKeys(params)
    ensures Parse(Print(params)) == ToMap(params) <==> forall i :: 0 <= i < |params| ==> Clean(params[i])
  {
    hide Clean, Parse, Print;
    if forall i :: 0 <= i < |params| ==> Clean(params[i]) {
      PrintedParses(params);
    }
    if Parse(Print(params)) == ToMap(params) {
      forall i | 0 <= i < |params| ensures Clean(params[i]) {
        InMap(params, i);
        ParseYieldsClean(Print(params), params[i].key);
      }
    }
  }
}
