/** String operations of the JavaScript runtime that the site relies on:
    `trim`, `split` on one character, `join`, ASCII `toLowerCase`,
    `startsWith` and a decimal `parseInt`. */
module Text {
  import opened Common

  // ---------------------------------------------------------------- trim

  /** ECMAScript WhiteSpace and LineTerminator code points: what `trim` strips. */
  predicate IsWhitespace(c: char) {
    var n := c as int;
    || 0x09 <= n <= 0x0D || n == 0x20 || n == 0xA0 || n == 0x1680 || 0x2000 <= n <= 0x200A
    || n == 0x2028 || n == 0x2029 || n == 0x202F || n == 0x205F || n == 0x3000 || n == 0xFEFF
  }

  predicate AllWhitespace(s: string) {
    forall i :: 0 <= i < |s| ==> IsWhitespace(s[i])
  }

  function TrimStart(s: string): (r: string)
    ensures |r| <= |s| && r == s[|s| - |r|..]
    ensures r == "" || !IsWhitespace(r[0])
    ensures AllWhitespace(s[..|s| - |r|])
  {
    if s != [] && IsWhitespace(s[0]) then
      var r := TrimStart(s[1..]);
      assert s[1..][..|s| - 1 - |r|] == s[1..|s| - |r|];
      r
    else s
  }

  function TrimEnd(s: string): (r: string)
    ensures |r| <= |s| && r == s[..|r|]
    ensures r == "" || !IsWhitespace(r[|r| - 1])
    ensures AllWhitespace(s[|r|..])
  {
    if s != [] && IsWhitespace(s[|s| - 1]) then
      var r := TrimEnd(s[..|s| - 1]);
      r
    else s
  }

  /** A string with no white space at either end. */
  predicate Trimmed(s: string) {
    s == "" || (!IsWhitespace(s[0]) && !IsWhitespace(s[|s| - 1]))
  }

  /** `s.trim()`: the longest slice of `s` without leading or trailing white space. */
  function Trim(s: string): (r: string)
    ensures |r| <= |s|
    ensures Trimmed(r)
    ensures r <= s[|s| - |TrimStart(s)|..]
  {
    TrimEnd(TrimStart(s))
  }

  /** Trimming removes white space from the two ends and nothing else: the
      input is the result between a white-space prefix and a white-space
      suffix. */
  lemma TrimRemovesOnlySurroundingSpace(s: string)
    ensures exists pre: string, post: string ::
              s == pre + Trim(s) + post && AllWhitespace(pre) && AllWhitespace(post)
  {
    var t := TrimStart(s);
    var r := TrimEnd(t);
    var pre, post := s[..|s| - |t|], t[|r|..];
    assert AllWhitespace(pre) && AllWhitespace(post);
    Surrounded(s, t, r);
    assert s == pre + Trim(s) + post;
  }

  lemma Surrounded(s: string, t: string, r: string)
    requires |r| <= |t| <= |s| && t == s[|s| - |t|..] && r == t[..|r|]
    ensures s == s[..|s| - |t|] + r + t[|r|..]
  {
  }

  /** Trimming adds no character. */
  lemma NotInTrim(s: string, c: char)
    requires c !in s
    ensures c !in Trim(s)
  {
    var k := |s| - |TrimStart(s)|;
    var r := Trim(s);
    forall i | 0 <= i < |r| ensures r[i] != c {
      assert r[i] == s[k..][i] == s[k + i];
    }
  }

  /** Trimming twice is trimming once. */
  lemma TrimIdempotent(s: string)
    ensures Trim(Trim(s)) == Trim(s)
  {
    TrimOfTrimmed(Trim(s));
  }

  /** `!s.trim()`: a string is blank when trimming leaves nothing. */
  predicate IsBlank(s: string) {
    Trim(s) == ""
  }

  /** Blank strings are exactly the all-white-space strings. */
  lemma BlankIffAllWhitespace(s: string)
    ensures IsBlank(s) <==> AllWhitespace(s)
  {
    var t := TrimStart(s);
    if TrimEnd(t) == "" {
      assert AllWhitespace(t[0..]);
      assert s == s[..|s| - |t|] + t;
    }
  }

  /** A string with a character that is not white space is not blank. */
  lemma NotBlankAt(s: string, i: nat)
    requires i < |s| && !IsWhitespace(s[i])
    ensures !IsBlank(s)
  {
    BlankIffAllWhitespace(s);
  }

  /** A string with no white space at either end is its own trim. */
  lemma TrimOfTrimmed(s: string)
    requires Trimmed(s)
    ensures Trim(s) == s
  {
  }

  /** Leading white space does not change the trim. */
  lemma {:induction false} TrimAfterSpace(pad: string, s: string)
    requires AllWhitespace(pad)
    ensures TrimStart(pad + s) == TrimStart(s)
    ensures Trim(pad + s) == Trim(s)
  {
    if pad != [] {
      assert (pad + s)[0] == pad[0];
      assert (pad + s)[1..] == pad[1..] + s;
      TrimAfterSpace(pad[1..], s);
    } else {
      assert pad + s == s;
    }
  }

  // ------------------------------------------------------- split and join

  /** `s.split(sep)` for a one-character separator: always at least one piece,
      and no piece contains the separator. */
  function Split(s: string, sep: char): (r: seq<string>)
    ensures |r| >= 1
    ensures forall i :: 0 <= i < |r| ==> sep !in r[i]
    ensures |r| == 1 <==> sep !in s
  {
    if s == [] then [""]
    else
      var rest := Split(s[1..], sep);
      if s[0] == sep then [""] + rest
      else [[s[0]] + rest[0]] + rest[1..]
  }

  /** The first piece of a split is the text up to the first separator: a
      prefix followed by the separator or by nothing. */
  lemma {:induction false} SplitHead(s: string, sep: char)
    ensures var h := Split(s, sep)[0];
            h <= s && (|h| == |s| || s[|h|] == sep)
  {
    if s != [] && s[0] != sep {
      SplitHead(s[1..], sep);
      var h := Split(s[1..], sep)[0];
      assert Split(s, sep)[0] == [s[0]] + h;
      assert s == [s[0]] + s[1..];
    }
  }

  /** `parts.join(sep)`; the join of no parts is the empty string. */
  function Join(parts: seq<string>, sep: string): (r: string)
    ensures parts == [] ==> r == ""
    ensures |parts| == 1 ==> r == parts[0]
  {
    if |parts| == 0 then ""
    else if |parts| == 1 then parts[0]
    else parts[0] + sep + Join(parts[1..], sep)
  }

  /** Splitting text that holds one separator after a separator-free head. */
  lemma {:induction false} SplitAfterHead(head: string, sep: char, tail: string)
    requires sep !in head
    ensures Split(head + [sep] + tail, sep) == [head] + Split(tail, sep)
  {
    if head == [] {
      assert head + [sep] + tail == [sep] + tail;
      assert ([sep] + tail)[1..] == tail;
    } else {
      assert (head + [sep] + tail)[1..] == head[1..] + [sep] + tail;
      SplitAfterHead(head[1..], sep, tail);
      assert [head[0]] + head[1..] == head;
    }
  }

  /** Text without the separator is one piece. */
  lemma {:induction false} SplitWithoutSep(s: string, sep: char)
    requires sep !in s
    ensures Split(s, sep) == [s]
  {
    if s != [] {
      SplitWithoutSep(s[1..], sep);
      assert [s[0]] + s[1..] == s;
    }
  }

  /** Splitting a join on its one-character separator gives the parts back,
      provided the list is not empty and no part contains the separator. */
  lemma {:induction false} SplitJoin(parts: seq<string>, sep: char)
    requires |parts| >= 1
    requires forall i :: 0 <= i < |parts| ==> sep !in parts[i]
    ensures Split(Join(parts, [sep]), sep) == parts
  {
    if |parts| == 1 {
      SplitWithoutSep(parts[0], sep);
    } else {
      SplitJoin(parts[1..], sep);
      SplitAfterHead(parts[0], sep, Join(parts[1..], [sep]));
      assert [parts[0]] + parts[1..] == parts;
    }
  }

  /** Each piece with the padding in front. */
  function PadAll(parts: seq<string>, pad: string): (r: seq<string>)
    ensures |r| == |parts|
    ensures forall i :: 0 <= i < |parts| ==> r[i] == pad + parts[i]
  {
    if parts == [] then [] else [pad + parts[0]] + PadAll(parts[1..], pad)
  }

  /** Splitting a join whose separator is one character followed by padding:
      every piece after the first keeps the padding in front. */
  lemma SplitJoinPadded(parts: seq<string>, sep: char, pad: string)
    requires |parts| >= 1
    requires sep !in pad
    requires forall i :: 0 <= i < |parts| ==> sep !in parts[i]
    ensures |Split(Join(parts, [sep] + pad), sep)| == |parts|
    ensures Split(Join(parts, [sep] + pad), sep)[0] == parts[0]
    ensures forall i :: 1 <= i < |parts| ==> Split(Join(parts, [sep] + pad), sep)[i] == pad + parts[i]
  {
    SplitJoinPaddedPieces(parts, sep, pad);
    var r := Split(Join(parts, [sep] + pad), sep);
    forall i | 1 <= i < |parts|
      ensures r[i] == pad + parts[i]
    {
      assert r[i] == PadAll(parts[1..], pad)[i - 1];
    }
  }

  /** The same split as one sequence: the first part, then the others padded. */
  lemma {:induction false} SplitJoinPaddedPieces(parts: seq<string>, sep: char, pad: string)
    requires |parts| >= 1
    requires sep !in pad
    requires forall i :: 0 <= i < |parts| ==> sep !in parts[i]
    ensures Split(Join(parts, [sep] + pad), sep) == [parts[0]] + PadAll(parts[1..], pad)
  {
    if |parts| == 1 {
      SplitWithoutSep(parts[0], sep);
    } else {
      var tail := Join(parts[1..], [sep] + pad);
      SplitJoinPaddedPieces(parts[1..], sep, pad);
      assert Join(parts, [sep] + pad) == parts[0] + [sep] + (pad + tail);
      SplitAfterHead(parts[0], sep, pad + tail);
      SplitPadHead(pad, sep, tail);
      var rest, st := Split(pad + tail, sep), Split(tail, sep);
      assert rest == [rest[0]] + rest[1..];
      assert st[1..] == PadAll(parts[2..], pad);
      assert parts[1..][1..] == parts[2..];
    }
  }

  /** Text in front of the first separator ends up in the first piece. */
  lemma {:induction false} SplitPadHead(pad: string, sep: char, s: string)
    requires sep !in pad
    ensures |Split(pad + s, sep)| == |Split(s, sep)|
    ensures Split(pad + s, sep)[0] == pad + Split(s, sep)[0]
    ensures Split(pad + s, sep)[1..] == Split(s, sep)[1..]
  {
    if pad == [] {
      assert pad + s == s;
    } else {
      assert (pad + s)[0] == pad[0] && pad[0] != sep;
      assert (pad + s)[1..] == pad[1..] + s;
      SplitPadHead(pad[1..], sep, s);
      assert [pad[0]] + (pad[1..] + Split(s, sep)[0]) == pad + Split(s, sep)[0];
    }
  }

  // ------------------------------------------------------------ lowercase

  function ToLowerChar(c: char): char {
    if 'A' <= c <= 'Z' then (c as int + 32) as char else c
  }

  /** A string with no ASCII capital letter. */
  predicate Lowercase(s: string) {
    forall i :: 0 <= i < |s| ==> !('A' <= s[i] <= 'Z')
  }

  /** `toLowerCase` restricted to ASCII letters. */
  function ToLower(s: string): (r: string)
    ensures |r| == |s|
    ensures forall i :: 0 <= i < |s| ==> r[i] == ToLowerChar(s[i])
    ensures Lowercase(r)
  {
    if s == [] then [] else [ToLowerChar(s[0])] + ToLower(s[1..])
  }

  lemma ToLowerIdempotent(s: string)
    ensures ToLower(ToLower(s)) == ToLower(s)
  {
  }

  /** `s.startsWith(prefix)`. */
  predicate StartsWith(s: string, prefix: string) {
    prefix <= s
  }

  /** Two prefixes of one string are prefixes of each other. */
  lemma PrefixesAreOrdered(s: string, a: string, b: string)
    requires StartsWith(s, a) && StartsWith(s, b)
    ensures StartsWith(a, b) || StartsWith(b, a)
  {
    if |a| <= |b| {
      assert a == s[..|a|] == b[..|a|];
    } else {
      assert b == s[..|b|] == a[..|b|];
    }
  }

  // ------------------------------------------------------------- parseInt

  predicate IsDigit(c: char) {
    '0' <= c <= '9'
  }

  predicate AllDigits(s: string) {
    forall i :: 0 <= i < |s| ==> IsDigit(s[i])
  }

  /** The value of a string of decimal digits, most significant first. */
  function DigitsValue(ds: string): (n: nat)
    requires AllDigits(ds)
  {
    if ds == [] then 0
    else DigitsValue(ds[..|ds| - 1]) * 10 + (ds[|ds| - 1] as int - '0' as int)
  }

  /** The longest run of digits at the front of `s`. */
  function LeadingDigits(s: string): (ds: string)
    ensures ds <= s && AllDigits(ds)
    ensures |ds| == |s| || !IsDigit(s[|ds|])
  {
    if s != [] && IsDigit(s[0]) then
      var rest := LeadingDigits(s[1..]);
      assert [s[0]] + rest <= s;
      [s[0]] + rest
    else ""
  }

  /** `parseInt(s)` in base 10: leading white space is skipped, then an
      optional sign, then the longest run of digits; no digit gives `None`
      (JavaScript's `NaN`). */
  function ParseInt(s: string): (r: Option<int>)
  {
    ParseSigned(TrimStart(s))
  }

  /** The part of `parseInt` after the white space: a sign, then digits. */
  function ParseSigned(t: string): (r: Option<int>)
  {
    var negative := t != [] && t[0] == '-';
    var unsigned := if t != [] && (t[0] == '-' || t[0] == '+') then t[1..] else t;
    var ds := LeadingDigits(unsigned);
    if ds == "" then None
    else
      var v: int := DigitsValue(ds);
      if negative then Some(-v) else Some(v)
  }

  /** A run of digits is read whole when what follows is not a digit. */
  lemma {:induction false} LeadingDigitsOfRun(ds: string, rest: string)
    requires AllDigits(ds)
    requires rest == "" || !IsDigit(rest[0])
    ensures LeadingDigits(ds + rest) == ds
  {
    if ds != [] {
      assert (ds + rest)[1..] == ds[1..] + rest;
      LeadingDigitsOfRun(ds[1..], rest);
    } else {
      assert ds + rest == rest;
    }
  }

  /** The signed value that `parseInt` reads from a sign and a run of digits. */
  function SignedValue(sign: string, ds: string): int
    requires AllDigits(ds)
  {
    var v: int := DigitsValue(ds);
    if sign == "-" then -v else v
  }

  /** The sign-and-digits part of `parseInt`, read from its parts. */
  lemma {:induction false} ParseSignedOf(sign: string, ds: string, rest: string)
    requires sign == "" || sign == "-" || sign == "+"
    requires AllDigits(ds) && ds != ""
    requires rest == "" || !IsDigit(rest[0])
    ensures ParseSigned(sign + ds + rest) == Some(SignedValue(sign, ds))
  {
    var u := ds + rest;
    LeadingDigitsOfRun(ds, rest);
    assert u[0] == ds[0];
    if sign == "" {
      assert sign + ds + rest == u;
      ParseUnsigned(u, ds);
    } else {
      assert sign + ds + rest == sign + u;
      ParseWithSign(sign, u, ds);
    }
  }

  lemma ParseUnsigned(u: string, ds: string)
    requires AllDigits(ds) && ds != "" && LeadingDigits(u) == ds && u != [] && u[0] == ds[0]
    ensures ParseSigned(u) == Some(DigitsValue(ds) as int)
  {
    assert IsDigit(u[0]);
  }

  lemma ParseWithSign(sign: string, u: string, ds: string)
    requires sign == "-" || sign == "+"
    requires AllDigits(ds) && ds != "" && LeadingDigits(u) == ds
    ensures ParseSigned(sign + u) == Some(SignedValue(sign, ds))
  {
    var t := sign + u;
    assert t[0] == sign[0] && t[1..] == u;
    assert (t[0] == '-') == (sign == "-");
  }

  /** A sign or a digit is not white space. */
  lemma SignedStart(sign: string, ds: string, rest: string)
    requires sign == "" || sign == "-" || sign == "+"
    requires AllDigits(ds) && ds != ""
    ensures !IsWhitespace((sign + ds + rest)[0])
  {
    if sign == "" {
      assert (sign + ds + rest)[0] == ds[0];
    } else {
      assert (sign + ds + rest)[0] == sign[0];
    }
  }

  /** `parseInt` characterised: white space, a sign, digits, then anything
      that does not start with a digit. */
  lemma {:induction false} ParseIntOf(ws: string, sign: string, ds: string, rest: string)
    requires AllWhitespace(ws)
    requires sign == "" || sign == "-" || sign == "+"
    requires AllDigits(ds) && ds != ""
    requires rest == "" || !IsDigit(rest[0])
    ensures ParseInt(ws + (sign + ds + rest)) == Some(SignedValue(sign, ds))
  {
    SignedStart(sign, ds, rest);
    TrimStartSkipsWhitespace(ws, sign + ds + rest);
    ParseSignedOf(sign, ds, rest);
  }

  /** Text with no digit after the optional sign is not a number. */
  lemma {:induction false} ParseIntNone(ws: string, sign: string, rest: string)
    requires AllWhitespace(ws)
    requires sign == "" || sign == "-" || sign == "+"
    requires rest == "" || !IsDigit(rest[0])
    requires sign == "" ==> rest == "" || (!IsWhitespace(rest[0]) && rest[0] != '-' && rest[0] != '+')
    ensures ParseInt(ws + (sign + rest)) == None
  {
    ParseSignedNone(sign, rest);
    if sign != "" {
      assert (sign + rest)[0] == sign[0];
    }
    TrimStartSkipsWhitespace(ws, sign + rest);
  }

  lemma ParseSignedNone(sign: string, rest: string)
    requires sign == "" || sign == "-" || sign == "+"
    requires rest == "" || !IsDigit(rest[0])
    requires sign == "" ==> rest == "" || (rest[0] != '-' && rest[0] != '+')
    ensures ParseSigned(sign + rest) == None
  {
    var t := sign + rest;
    if sign != "" {
      assert t[0] == sign[0];
      assert t[1..] == rest;
    } else {
      assert t == rest;
    }
  }

  /** White space in front of a non-blank start is what TrimStart removes. */
  lemma {:induction false} TrimStartSkipsWhitespace(ws: string, t: string)
    requires AllWhitespace(ws)
    requires t == "" || !IsWhitespace(t[0])
    ensures TrimStart(ws + t) == t
  {
    if ws == [] {
      assert ws + t == t;
    } else {
      assert (ws + t)[1..] == ws[1..] + t;
      TrimStartSkipsWhitespace(ws[1..], t);
    }
  }

  /** `parseInt(x) || d`: the parsed number, or the default when the text
      does not parse or parses to zero. */
  function ParseIntOr(s: string, default: int): (r: int)
    ensures ParseInt(s).Some? && ParseInt(s).value != 0 ==> r == ParseInt(s).value
    ensures ParseInt(s).None? || ParseInt(s).value == 0 ==> r == default
  {
    match ParseInt(s)
    case Some(n) => if n != 0 then n else default
    case None => default
  }

  /** The decimal text of a natural number, as `String(n)` writes it. */
  function DecimalString(n: nat): (s: string)
    ensures s != "" && AllDigits(s)
  {
    var d := [('0' as int + n % 10) as char];
    if n < 10 then d else DecimalString(n / 10) + d
  }

  /** Reading the decimal text of `n` gives back `n`. */
  lemma {:induction false} DecimalStringValue(n: nat)
    ensures DigitsValue(DecimalString(n)) == n
  {
    var s := DecimalString(n);
    if n >= 10 {
      DecimalStringValue(n / 10);
      assert s[..|s| - 1] == DecimalString(n / 10);
    }
  }

  /** `parseInt(String(n))` is `n`: the form fields that show a number and
      read it back agree. */
  lemma {:induction false} ParseIntOfDecimal(n: nat)
    ensures ParseInt(DecimalString(n)) == Some(n)
  {
    ParseDigits(DecimalString(n));
    DecimalStringValue(n);
  }

  /** A run of digits parses to its value. */
  lemma ParseDigits(ds: string)
    requires AllDigits(ds) && ds != ""
    ensures ParseInt(ds) == Some(DigitsValue(ds) as int)
  {
    TrimStartOfDigits(ds);
    LeadingDigitsOfRun(ds, "");
    assert ds + "" == ds;
    ParseUnsigned(ds, ds);
  }

  lemma TrimStartOfDigits(ds: string)
    requires AllDigits(ds) && ds != ""
    ensures TrimStart(ds) == ds
  {
    assert IsDigit(ds[0]);
    assert !IsWhitespace(ds[0]);
  }

  // --------------------------------------------------------------- length

  /** The number of UTF-16 code units a code point takes: two beyond the
      Basic Multilingual Plane, one inside it. */
  function Utf16Units(c: char): (n: nat)
    ensures n == 1 || n == 2
    ensures n == 2 <==> c as int >= 0x10000
  {
    if c as int >= 0x10000 then 2 else 1
  }

  /** `s.length`, and the length Mongoose's `maxlength` and the form's
      `minLength` measure: UTF-16 code units, not code points. */
  function Utf16Length(s: string): (n: nat)
    ensures |s| <= n <= 2 * |s|
  {
    if s == [] then 0 else Utf16Units(s[0]) + Utf16Length(s[1..])
  }

  /** Counting code units distributes over concatenation. */
  lemma {:induction false} Utf16LengthConcat(a: string, b: string)
    ensures Utf16Length(a + b) == Utf16Length(a) + Utf16Length(b)
  {
    if a == [] {
      assert a + b == b;
    } else {
      assert (a + b)[0] == a[0] && (a + b)[1..] == a[1..] + b;
      Utf16LengthConcat(a[1..], b);
    }
  }

  /** The two lengths agree exactly when no code point lies beyond the
      Basic Multilingual Plane. */
  lemma {:induction false} Utf16LengthOfBmp(s: string)
    ensures Utf16Length(s) == |s| <==> forall i :: 0 <= i < |s| ==> s[i] as int < 0x10000
  {
    if s != [] {
      Utf16LengthOfBmp(s[1..]);
      assert forall i :: 1 <= i < |s| ==> s[i] == s[1..][i - 1];
    }
  }
}
