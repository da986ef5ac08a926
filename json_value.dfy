/** `serde_json::Value` and the compact text its `Display` produces (the
    `{value}` of a `format!`). */
module JsonValue {
  import opened Strings

  /** A JSON value. Numbers are integers only; an object is a map from its
      keys to its values. */
  datatype Json =
    | Null
    | Bool(b: bool)
    | Num(n: int)
    | Str(s: string)
    | Arr(items: seq<Json>)
    | Obj(fields: map<string, Json>)

  function DigitChar(d: int): char
    requires 0 <= d < 10
  {
    ('0' as int + d) as char
  }

  /** Decimal digits of `n`, most significant first, no leading zero. */
  function Digits(n: nat): (r: string)
    ensures |r| > 0
    ensures forall i :: 0 <= i < |r| ==> '0' <= r[i] <= '9'
    decreases n
  {
    if n < 10 then [DigitChar(n)] else Digits(n / 10) + [DigitChar(n % 10)]
  }

  /** An integer as `serde_json` writes it: optional minus sign, then decimal digits. */
  function IntText(n: int): string
  {
    if n < 0 then "-" + Digits(-n) else Digits(n)
  }

  function HexDigit(d: int): char
    requires 0 <= d < 16
  {
    if d < 10 then ('0' as int + d) as char else ('a' as int + d - 10) as char
  }

  /** The characters `serde_json` writes as an escape sequence inside a string. */
  predicate NeedsEscape(c: char)
  {
    c == '"' || c == '\\' || c < ' '
  }

  /** One character inside a JSON string literal as `serde_json` writes it:
      quote and backslash are backslash-escaped, the five control characters
      with a short form use it, every other control character is `\u00XX`
      with lower-case hex digits, and anything else is written as it is. */
  function EscapeChar(c: char): (r: string)
    ensures !NeedsEscape(c) <==> r == [c]
  {
    if c == '"' then "\\\""
    else if c == '\\' then "\\\\"
    else if c == '\n' then "\\n"
    else if c == '\r' then "\\r"
    else if c == '\t' then "\\t"
    else if c == '\U{8}' then "\\b"
    else if c == '\U{C}' then "\\f"
    else if c < ' ' then "\\u00" + [HexDigit(c as int / 16), HexDigit(c as int % 16)]
    else [c]
  }

  function Escape(s: string): string
  {
    if s == [] then "" else EscapeChar(s[0]) + Escape(s[1..])
  }

  /** A string as a JSON string literal. */
  function Quote(s: string): string
  {
    "\"" + Escape(s) + "\""
  }

  /** `Display for serde_json::Value`: compact JSON with no whitespace, array
      elements and object members separated by commas, object members in
      ascending key order (the order of `serde_json::Map`). */
  function Render(v: Json): string
    decreases v
  {
    match v
    case Null => "null"
    case Bool(b) => if b then "true" else "false"
    case Num(n) => IntText(n)
    case Str(s) => Quote(s)
    case Arr(xs) =>
      "[" + Join(",", seq(|xs|, i requires 0 <= i < |xs| => Render(xs[i]))) + "]"
    case Obj(m) =>
      var ks := SortedKeys(m.Keys);
      "{" + Join(",", seq(|ks|, i requires 0 <= i < |ks| => Quote(ks[i]) + ":" + Render(m[ks[i]]))) + "}"
  }

  /** A string with no character that needs escaping is written between plain quotes. */
  lemma {:induction false} EscapePlain(s: string)
    requires forall i :: 0 <= i < |s| ==> !NeedsEscape(s[i])
    ensures Escape(s) == s
  {
    if s != [] {
      EscapePlain(s[1..]);
      assert s == [s[0]] + s[1..];
    }
  }

  lemma RenderPlainString(s: string)
    requires forall i :: 0 <= i < |s| ==> !NeedsEscape(s[i])
    ensures Render(Str(s)) == "\"" + s + "\""
  {
    EscapePlain(s);
  }

  predicate ParenFree(s: string)
  {
    '(' !in s && ')' !in s
  }

  lemma ConcatParenFree(a: string, b: string)
    requires ParenFree(a) && ParenFree(b)
    ensures ParenFree(a + b)
  {
  }

  /** No string and no object key anywhere inside `v` holds a parenthesis. */
  predicate JsonParenFree(v: Json)
    decreases v
  {
    match v
    case Str(s) => ParenFree(s)
    case Arr(xs) => forall i :: 0 <= i < |xs| ==> JsonParenFree(xs[i])
    case Obj(m) => forall k | k in m :: ParenFree(k) && JsonParenFree(m[k])
    case _ => true
  }

  lemma EscapeCharParenFree(c: char)
    requires c != '(' && c != ')'
    ensures ParenFree(EscapeChar(c))
  {
    if c < ' ' && c != '\n' && c != '\r' && c != '\t' && c != '\U{8}' && c != '\U{C}' {
      var h := [HexDigit(c as int / 16), HexDigit(c as int % 16)];
      assert ParenFree(h);
      assert EscapeChar(c) == "\\u00" + h;
    }
  }

  lemma {:induction false} EscapeParenFree(s: string)
    requires ParenFree(s)
    ensures ParenFree(Escape(s))
  {
    if s != [] {
      assert s[0] in s;
      EscapeCharParenFree(s[0]);
      assert forall c | c in s[1..] :: c in s;
      EscapeParenFree(s[1..]);
    }
  }

  lemma {:induction false} IntTextParenFree(n: int)
    ensures ParenFree(IntText(n))
  {
  }

  /** The text of a value holds a parenthesis only if one of its strings or keys does. */
  lemma {:induction false} RenderParenFree(v: Json)
    requires JsonParenFree(v)
    ensures ParenFree(Render(v))
    decreases v, 2
  {
    match v
    case Null =>
    case Bool(_) =>
    case Num(n) => IntTextParenFree(n);
    case Str(s) => EscapeParenFree(s);
    case Arr(xs) => ItemsParenFree(v);
    case Obj(m) => FieldsParenFree(v);
  }

  lemma {:induction false} ItemsParenFree(v: Json)
    requires v.Arr? && JsonParenFree(v)
    ensures ParenFree(Render(v))
    decreases v, 1
  {
    var xs := v.items;
    var parts := seq(|xs|, i requires 0 <= i < |xs| => Render(xs[i]));
    forall i | 0 <= i < |xs|
      ensures ParenFree(parts[i])
    {
      RenderParenFree(xs[i]);
    }
    JoinAvoids(",", parts, '(');
    JoinAvoids(",", parts, ')');
    assert Render(v) == "[" + Join(",", parts) + "]";
  }

  /** One `"key":value` member of an object holds no parenthesis. */
  lemma {:induction false} MemberParenFree(v: Json, k: string)
    requires v.Obj? && JsonParenFree(v) && k in v.fields
    ensures ParenFree(Quote(k) + ":" + Render(v.fields[k]))
    decreases v, 0
  {
    assert ParenFree(k) && JsonParenFree(v.fields[k]);
    EscapeParenFree(k);
    RenderParenFree(v.fields[k]);
    ConcatParenFree(Quote(k), ":");
    ConcatParenFree(Quote(k) + ":", Render(v.fields[k]));
  }

  lemma {:induction false} FieldsParenFree(v: Json)
    requires v.Obj? && JsonParenFree(v)
    ensures ParenFree(Render(v))
    decreases v, 1
  {
    var m := v.fields;
    var ks := SortedKeys(m.Keys);
    var parts := seq(|ks|, i requires 0 <= i < |ks| => Quote(ks[i]) + ":" + Render(m[ks[i]]));
    forall i | 0 <= i < |ks|
      ensures ParenFree(parts[i])
    {
      var k := ks[i];
      assert k in m;
      MemberParenFree(v, k);
    }
    JoinAvoids(",", parts, '(');
    JoinAvoids(",", parts, ')');
    assert Render(v) == "{" + Join(",", parts) + "}";
  }
}
