/**
 Query-string lookup, the verb chosen from it and the name a field selector pins. Components
 are decoded as in section 5 of the WHATWG URL Standard: `+` is a space, then `%XX`.
 */
module RequestQuery {
  import opened Prelude
  import opened Text
  import opened Utf8
  import opened Percent
  import opened RequestPath

  function PlusToSpace(s: string): (r: string)
    ensures |r| == |s|
  {
    seq(|s|, i requires 0 <= i < |s| => if s[i] == '+' then ' ' else s[i])
  }

  function DecodeQueryComponent(s: string): Option<string> {
    PercentDecode(PlusToSpace(s))
  }

  /** A pair split at its first `=`; without one the value is empty. */
  function PairOf(part: string): (string, string) {
    var kv := SplitOnce(part, '=');
    if kv.Some? then kv.value else (part, "")
  }

  function FindParam(parts: seq<string>, key: string): Option<string> {
    if parts == [] then None
    else if DecodeQueryComponent(PairOf(parts[0]).0) == Some(key) then Some(PairOf(parts[0]).1)
    else FindParam(parts[1..], key)
  }

  /** The first raw value whose decoded key is `key`. */
  function QueryParam(query: string, key: string): Option<string> {
    FindParam(Split(query, '&'), key)
  }

  // ---- Decoded pairs --------------------------------------------------------------------------

  /** What a query says once decoded; `None` marks a component that is not UTF-8. */
  type Pairs = seq<(Option<string>, Option<string>)>

  function DecodeParts(parts: seq<string>): (r: Pairs)
    ensures |r| == |parts|
  {
    seq(|parts|, i requires 0 <= i < |parts| =>
      (DecodeQueryComponent(PairOf(parts[i]).0), DecodeQueryComponent(PairOf(parts[i]).1)))
  }

  function DecodedPairs(query: string): Pairs { DecodeParts(Split(query, '&')) }

  /** The value of the first pair with the wanted key. */
  function FirstValue(pairs: Pairs, key: string): Option<Option<string>> {
    if pairs == [] then None
    else if pairs[0].0 == Some(key) then Some(pairs[0].1)
    else FirstValue(pairs[1..], key)
  }

  lemma {:induction false} FindParamIsFirstValue(parts: seq<string>, key: string)
    ensures FirstValue(DecodeParts(parts), key) ==
            match FindParam(parts, key) case None => None case Some(raw) => Some(DecodeQueryComponent(raw))
  {
    if parts != [] {
      FindParamIsFirstValue(parts[1..], key);
      assert DecodeParts(parts)[1..] == DecodeParts(parts[1..]);
    }
  }

  /** Lookup finds the first pair whose decoded key is the wanted one, whatever its spelling. */
  lemma QueryParamIsFirstValue(query: string, key: string)
    ensures FirstValue(DecodedPairs(query), key) ==
            match QueryParam(query, key) case None => None case Some(raw) => Some(DecodeQueryComponent(raw))
  {
    FindParamIsFirstValue(Split(query, '&'), key);
  }

  /** `e` spells `s`: bytes may be escaped, a space may be `+`, and `&`, `+` and `%` are escaped. */
  predicate FormEncodes(e: string, s: string)
    decreases |s|
  {
    if s == "" then e == ""
    else
      || (e != "" && e[0] != '%' && e[0] != '+' && e[0] != '&' && e[0] == s[0] && FormEncodes(e[1..], s[1..]))
      || (e != "" && e[0] == '+' && s[0] == ' ' && FormEncodes(e[1..], s[1..]))
      || (Escapes(e, s[0]) && FormEncodes(e[3..], s[1..]))
  }

  /** A key and a value joined by `=`, or a lone key for an empty value. */
  ghost predicate SpellsPair(part: string, pair: (string, string)) {
    || (exists ek: string, ev: string ::
          part == ek + "=" + ev && '=' !in ek && FormEncodes(ek, pair.0) && FormEncodes(ev, pair.1))
    || ('=' !in part && FormEncodes(part, pair.0) && pair.1 == "")
  }

  lemma PlusKeepsEscapes(e: string, b: char)
    ensures Escapes(PlusToSpace(e), b) <==> Escapes(e, b)
  {
    EscapesMeaning(PlusToSpace(e), b);
    EscapesMeaning(e, b);
  }

  /** A form-urlencoding is a percent-encoding in which spaces may be `+` and no `&` is bare. */
  lemma {:induction false} FormEncodesMeaning(e: string, s: string)
    ensures FormEncodes(e, s) <==> '&' !in e && Encodes(PlusToSpace(e), s)
    decreases |s|
  {
    if s != "" && e != "" {
      var p := PlusToSpace(e);
      PlusKeepsEscapes(e, s[0]);
      assert e == [e[0]] + e[1..] && p[1..] == PlusToSpace(e[1..]);
      FormEncodesMeaning(e[1..], s[1..]);
      if |e| >= 3 {
        assert e == e[..3] + e[3..] && p[3..] == PlusToSpace(e[3..]);
        FormEncodesMeaning(e[3..], s[1..]);
        if Escapes(e, s[0]) {
          EscapesMeaning(e, s[0]);
          assert e[..3] == [e[0], e[1], e[2]];
        }
      }
    }
  }

  lemma FormDecodes(e: string, s: string)
    requires FormEncodes(e, s) && ValidUtf8(s)
    ensures DecodeQueryComponent(e) == Some(s) && '&' !in e
  {
    FormEncodesMeaning(e, s);
    EncodingInverse(PlusToSpace(e), s);
  }

  /** A spelled pair reads as the pair, and holds no separator. */
  lemma SpelledPair(part: string, k: string, v: string)
    requires SpellsPair(part, (k, v)) && ValidUtf8(k) && ValidUtf8(v)
    ensures DecodeQueryComponent(PairOf(part).0) == Some(k) && DecodeQueryComponent(PairOf(part).1) == Some(v)
    ensures '&' !in part
  {
    if ek: string, ev: string :|
      part == ek + "=" + ev && '=' !in ek && FormEncodes(ek, k) && FormEncodes(ev, v)
    {
      SplitOnceAt(ek, '=', ev);
      FormDecodes(ek, k);
      FormDecodes(ev, v);
    } else {
      FormDecodes(part, k);
      FormDecodes("", "");
    }
  }

  /** Every form-urlencoding of a list of pairs reads back as that list. */
  lemma QueryRoundTrip(parts: seq<string>, pairs: seq<(string, string)>)
    requires parts != [] && |parts| == |pairs|
    requires forall i :: 0 <= i < |parts| ==> SpellsPair(parts[i], pairs[i])
    requires forall i :: 0 <= i < |parts| ==> ValidUtf8(pairs[i].0) && ValidUtf8(pairs[i].1)
    ensures |DecodedPairs(Join(parts, '&'))| == |pairs|
    ensures forall i :: 0 <= i < |pairs| ==>
              DecodedPairs(Join(parts, '&'))[i] == (Some(pairs[i].0), Some(pairs[i].1))
  {
    forall i | 0 <= i < |pairs|
      ensures DecodeParts(parts)[i] == (Some(pairs[i].0), Some(pairs[i].1)) && '&' !in parts[i]
    {
      SpelledPair(parts[i], pairs[i].0, pairs[i].1);
    }
    SplitOfJoin(parts, '&');
  }

  // ---- Verbs ----------------------------------------------------------------------------------

  function Lower(s: string): (r: string)
    ensures |r| == |s|
  {
    seq(|s|, i requires 0 <= i < |s| =>
      if 'A' <= s[i] <= 'Z' then (s[i] as int + 32) as char else s[i])
  }

  function ParseWatchValue(v: string): Option<bool> {
    if v == "true" || v == "1" then Some(true)
    else if v == "false" || v == "0" then Some(false)
    else None
  }

  predicate RequestsWatch(query: Option<string>) {
    if query.None? then false
    else
      match QueryParam(query.value, "watch")
      case None => false
      case Some(raw) =>
        match DecodeQueryComponent(raw)
        case None => true
        case Some(v) =>
          if ParseWatchValue(v).Some? then ParseWatchValue(v).value
          else Lower(v) != "false" && Lower(v) != "0"
  }

  function GetVerb(name: Option<string>, query: Option<string>): string {
    if name.Some? then "get" else if RequestsWatch(query) then "watch" else "list"
  }

  function MethodToVerb(httpMethod: string): string {
    match httpMethod
    case "GET" => "get"
    case "POST" => "create"
    case "PUT" => "update"
    case "PATCH" => "patch"
    case "DELETE" => "delete"
    case "HEAD" => "head"
    case _ => "get"
  }

  function RequestVerb(httpMethod: string, parsed: ParsedPath, nonResource: bool, query: Option<string>): string {
    if nonResource then MethodToVerb(httpMethod)
    else if httpMethod == "GET" || httpMethod == "HEAD" then GetVerb(parsed.name, query)
    else if httpMethod == "DELETE" && parsed.name.None? then "deletecollection"
    else MethodToVerb(httpMethod)
  }

  predicate LongRunningSubresource(s: string) {
    s == "proxy" || s == "attach" || s == "exec" || s == "log" || s == "portforward"
  }

  predicate IsLongRunning(httpMethod: string, path: string, query: Option<string>) {
    var parsed := ParsePath(path);
    if parsed.resource == "" then false
    else LongRunningSubresource(parsed.subresource)
         || (httpMethod == "GET" && parsed.name.None? && RequestsWatch(query))
  }

  /** `false` in any letter case, or `0`. */
  predicate SaysNo(v: string) {
    || v == "0"
    || (|v| == 5 && v[0] in "fF" && v[1] in "aA" && v[2] in "lL" && v[3] in "sS" && v[4] in "eE")
  }

  lemma LowerOfLetter(v: string, i: nat, small: char, big: char)
    requires i < |v| && 'a' <= small <= 'z' && big as int + 32 == small as int
    ensures Lower(v)[i] == small <==> v[i] in [big, small]
  {
  }

  lemma FiveLetters(s: string, t: string)
    requires |s| == |t| == 5
    ensures s == t <==> s[0] == t[0] && s[1] == t[1] && s[2] == t[2] && s[3] == t[3] && s[4] == t[4]
  {
  }

  lemma LowerIsFalse(v: string)
    requires |v| == 5
    ensures Lower(v) == "false" <==>
            v[0] in "fF" && v[1] in "aA" && v[2] in "lL" && v[3] in "sS" && v[4] in "eE"
  {
    FiveLetters(Lower(v), "false");
    LowerOfLetter(v, 0, 'f', 'F');
    LowerOfLetter(v, 1, 'a', 'A');
    LowerOfLetter(v, 2, 'l', 'L');
    LowerOfLetter(v, 3, 's', 'S');
    LowerOfLetter(v, 4, 'e', 'E');
  }

  lemma SaysNoMeaning(v: string)
    ensures SaysNo(v) <==> Lower(v) == "false" || Lower(v) == "0"
  {
    if |v| == 5 {
      LowerIsFalse(v);
    } else if |v| == 1 {
      assert Lower(v)[0] == '0' <==> v[0] == '0';
      assert v == [v[0]] && Lower(v) == [Lower(v)[0]];
    }
  }

  /** The watch test on a decoded value is just that. */
  lemma WatchValue(v: string)
    ensures (if ParseWatchValue(v).Some? then ParseWatchValue(v).value else Lower(v) != "false" && Lower(v) != "0")
            == !SaysNo(v)
  {
    SaysNoMeaning(v);
  }

  /** The watch test in terms of decoded pairs: anything but `false` or `0`, in any letter case,
      asks for a watch, and so does a value that is not UTF-8. */
  ghost predicate WatchAsked(pairs: Pairs) {
    match FirstValue(pairs, "watch")
    case None => false
    case Some(None) => true
    case Some(Some(v)) => !SaysNo(v)
  }

  /** The watch decision depends on the decoded pairs alone. */
  lemma WatchIsDecoded(query: string)
    ensures RequestsWatch(Some(query)) == WatchAsked(DecodedPairs(query))
  {
    QueryParamIsFirstValue(query, "watch");
    var value := FirstValue(DecodedPairs(query), "watch");
    if value.Some? && value.value.Some? {
      WatchValue(value.value.value);
    }
  }

  /** Which requests on a resource carry which verb. */
  lemma ResourceVerbExactly(httpMethod: string, parsed: ParsedPath, query: Option<string>)
    ensures var verb := RequestVerb(httpMethod, parsed, false, query);
            var reading := httpMethod == "GET" || httpMethod == "HEAD";
            && (verb == "create" <==> httpMethod == "POST")
            && (verb == "update" <==> httpMethod == "PUT")
            && (verb == "patch" <==> httpMethod == "PATCH")
            && (verb == "delete" <==> httpMethod == "DELETE" && parsed.name.Some?)
            && (verb == "deletecollection" <==> httpMethod == "DELETE" && parsed.name.None?)
            && (verb == "watch" <==> reading && parsed.name.None? && RequestsWatch(query))
            && (verb == "list" <==> reading && parsed.name.None? && !RequestsWatch(query))
            && (verb == "get" <==>
                  httpMethod !in {"POST", "PUT", "PATCH", "DELETE"} && (reading ==> parsed.name.Some?))
  {
  }

  /** A non-resource request carries its method, and an unknown method reads. */
  lemma NonResourceVerbExactly(httpMethod: string, parsed: ParsedPath, query: Option<string>)
    ensures var verb := RequestVerb(httpMethod, parsed, true, query);
            && (verb == "create" <==> httpMethod == "POST")
            && (verb == "update" <==> httpMethod == "PUT")
            && (verb == "patch" <==> httpMethod == "PATCH")
            && (verb == "delete" <==> httpMethod == "DELETE")
            && (verb == "head" <==> httpMethod == "HEAD")
            && (verb == "get" <==> httpMethod !in {"POST", "PUT", "PATCH", "DELETE", "HEAD"})
  {
  }

  /** The subresources that stream. */
  const STREAMING: set<string> := {"attach", "exec", "log", "portforward", "proxy"}

  /** Long-running and authorized verb agree: a resource request is long-running exactly when it
      names one of the five streaming subresources or is a GET whose verb is `watch`. */
  lemma LongRunningAgreesWithVerb(httpMethod: string, path: string, query: Option<string>)
    ensures var parsed := ParsePath(path);
            parsed.resource != "" ==>
              (IsLongRunning(httpMethod, path, query) <==>
                 parsed.subresource in STREAMING
                 || (httpMethod == "GET" && RequestVerb(httpMethod, parsed, false, query) == "watch"))
  {
  }

  /** A HEAD for a watched collection is authorized as `watch` and yet not long-running. */
  lemma HeadWatchIsNotLongRunning(path: string, query: Option<string>)
    requires var parsed := ParsePath(path);
             parsed.resource != "" && parsed.name.None? && parsed.subresource !in STREAMING
    requires RequestsWatch(query)
    ensures RequestVerb("HEAD", ParsePath(path), false, query) == "watch" && !IsLongRunning("HEAD", path, query)
  {
  }

  /** And that is the only disagreement: a resource request is long-running exactly when its verb is
      `watch` or it names a streaming subresource, unless it is such a HEAD. */
  lemma LongRunningIsWatchExactly(httpMethod: string, path: string, query: Option<string>)
    requires ParsePath(path).resource != ""
    ensures var parsed := ParsePath(path);
            var watch := RequestVerb(httpMethod, parsed, false, query) == "watch";
            (IsLongRunning(httpMethod, path, query) <==> watch || parsed.subresource in STREAMING)
            <==>
            !(httpMethod == "HEAD" && parsed.name.None? && RequestsWatch(query)
              && parsed.subresource !in STREAMING)
  {
    var parsed := ParsePath(path);
    assert RequestVerb(httpMethod, parsed, false, query) == "watch" <==>
           (httpMethod == "GET" || httpMethod == "HEAD") && parsed.name.None? && RequestsWatch(query);
  }

  // ---- Field selectors ------------------------------------------------------------------------

  /** Rust's `split_once("==")`. */
  function SplitOnceEqEq(s: string): (r: Option<(string, string)>)
    ensures r.Some? ==> s == r.value.0 + "==" + r.value.1
  {
    if |s| < 2 then None
    else if s[0] == '=' && s[1] == '=' then Some(("", s[2..]))
    else
      var rest := SplitOnceEqEq(s[1..]);
      if rest.None? then None else Some(([s[0]] + rest.value.0, rest.value.1))
  }

  predicate HasEqEq(s: string) {
    exists i :: 0 <= i < |s| - 1 && s[i] == '=' && s[i + 1] == '='
  }

  const METADATA_NAME: string := "metadata.name"

  function SelectorName(decoded: string): Option<string> {
    if ',' in decoded then None
    else
      var kv := if SplitOnceEqEq(decoded).Some? then SplitOnceEqEq(decoded) else SplitOnce(decoded, '=');
      if kv.None? || kv.value.0 != METADATA_NAME || kv.value.1 == "" then None else Some(kv.value.1)
  }

  function FieldSelectorName(query: Option<string>): Option<string> {
    if query.None? then None
    else
      var raw := QueryParam(query.value, "fieldSelector");
      if raw.None? || DecodeQueryComponent(raw.value).None? then None
      else SelectorName(DecodeQueryComponent(raw.value).value)
  }

  lemma {:induction false} SplitOnceEqEqSucceeds(s: string)
    ensures SplitOnceEqEq(s).Some? <==> HasEqEq(s)
  {
    if |s| >= 2 && !(s[0] == '=' && s[1] == '=') {
      var tail := s[1..];
      SplitOnceEqEqSucceeds(tail);
      if i :| 0 <= i < |s| - 1 && s[i] == '=' && s[i + 1] == '=' {
        assert tail[i - 1] == '=' && tail[i - 1 + 1] == '=';
      }
      if i :| 0 <= i < |tail| - 1 && tail[i] == '=' && tail[i + 1] == '=' {
        assert s[i + 1] == '=' && s[i + 1 + 1] == '=';
      }
    }
  }

  lemma {:induction false} SplitOnceEqEqAt(a: string, b: string)
    requires '=' !in a
    ensures SplitOnceEqEq(a + "==" + b) == Some((a, b))
  {
    var s := a + "==" + b;
    if a == "" {
      assert s[2..] == b;
    } else {
      assert s[0] == a[0] && s[1..] == a[1..] + "==" + b;
      SplitOnceEqEqAt(a[1..], b);
      assert [a[0]] + a[1..] == a;
    }
  }

  /** A selector pins the name `n` exactly when it is the single term `metadata.name==n`, or
      `metadata.name=n` with no other `==` in it. */
  lemma SelectorNameMeaning(d: string, n: string)
    ensures SelectorName(d) == Some(n) <==>
            && n != "" && ',' !in d
            && (d == "metadata.name" + "==" + n || (d == "metadata.name" + "=" + n && !HasEqEq(d)))
  {
    SplitOnceEqEqSucceeds(d);
    assert '=' !in METADATA_NAME;
    if d == METADATA_NAME + "==" + n {
      SplitOnceEqEqAt(METADATA_NAME, n);
    }
    if d == METADATA_NAME + "=" + n {
      SplitOnceAt(METADATA_NAME, '=', n);
    }
    if SelectorName(d) == Some(n) && SplitOnceEqEq(d).None? {
      assert d == METADATA_NAME + ['='] + n;
    }
  }

  /** The pinned name depends on the first decoded `fieldSelector` alone. */
  lemma FieldSelectorIsDecoded(query: string)
    ensures FieldSelectorName(Some(query)) ==
            match FirstValue(DecodedPairs(query), "fieldSelector")
            case Some(Some(d)) => SelectorName(d)
            case _ => None
  {
    QueryParamIsFirstValue(query, "fieldSelector");
  }
}
