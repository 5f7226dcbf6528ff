/** The parts of Go's strings and strconv packages that the server relies on. */
module Text {
  import opened Sequences
  import opened Wrappers

  // ---------- white space ----------

  /** Unicode White_Space, the set strings.TrimSpace removes. */
  predicate IsSpace(c: char) {
    || '\t' <= c <= '\r' || c == ' ' || c == '\U{85}' || c == '\U{A0}' || c == '\U{1680}'
    || '\U{2000}' <= c <= '\U{200A}' || c == '\U{2028}' || c == '\U{2029}'
    || c == '\U{202F}' || c == '\U{205F}' || c == '\U{3000}'
  }

  predicate AllSpace(s: string) {
    forall i :: 0 <= i < |s| ==> IsSpace(s[i])
  }

  function TrimLeft(s: string): string {
    if s != "" && IsSpace(s[0]) then TrimLeft(s[1..]) else s
  }

  function TrimRight(s: string): string {
    if s != "" && IsSpace(s[|s| - 1]) then TrimRight(s[..|s| - 1]) else s
  }

  function TrimSpace(s: string): string {
    TrimRight(TrimLeft(s))
  }

  /** A text the trimmer leaves alone: empty, or no white space at either end. */
  predicate Trimmed(s: string) {
    s == "" || (!IsSpace(s[0]) && !IsSpace(s[|s| - 1]))
  }

  lemma {:induction false} TrimLeftPrefix(w: string, s: string)
    requires AllSpace(w)
    ensures TrimLeft(w + s) == TrimLeft(s)
  {
    if w == "" {
      assert w + s == s;
    } else {
      assert (w + s)[1..] == w[1..] + s;
      TrimLeftPrefix(w[1..], s);
    }
  }

  lemma {:induction false} TrimRightSuffix(s: string, w: string)
    requires AllSpace(w)
    ensures TrimRight(s + w) == TrimRight(s)
  {
    if w == "" {
      assert s + w == s;
    } else {
      assert (s + w)[..|s + w| - 1] == s + w[..|w| - 1];
      TrimRightSuffix(s, w[..|w| - 1]);
    }
  }

  lemma {:induction false} TrimLeftSuffix(s: string, w: string)
    requires AllSpace(w)
    ensures AllSpace(s) ==> TrimLeft(s + w) == "" && TrimLeft(s) == ""
    ensures !AllSpace(s) ==> TrimLeft(s + w) == TrimLeft(s) + w
  {
    if s == "" {
      TrimLeftPrefix(w, "");
      assert w + "" == w && s + w == w;
    } else if IsSpace(s[0]) {
      assert (s + w)[1..] == s[1..] + w;
      assert AllSpace(s) <==> AllSpace(s[1..]) by {
        assert forall i :: 0 < i < |s| ==> s[i] == s[1..][i - 1];
      }
      TrimLeftSuffix(s[1..], w);
    }
  }

  /** White space around a text, such as an indenting encoder adds, is invisible after trimming. */
  lemma TrimSpacePadded(w: string, s: string, v: string)
    requires AllSpace(w) && AllSpace(v)
    ensures TrimSpace(w + s + v) == TrimSpace(s)
  {
    assert w + s + v == w + (s + v);
    TrimLeftPrefix(w, s + v);
    TrimLeftSuffix(s, v);
    if !AllSpace(s) {
      TrimRightSuffix(TrimLeft(s), v);
    }
  }

  lemma {:induction false} TrimRightEnds(s: string)
    ensures var t := TrimRight(s); t <= s && (t == "" || !IsSpace(t[|t| - 1]))
  {
    if s != "" && IsSpace(s[|s| - 1]) {
      TrimRightEnds(s[..|s| - 1]);
    }
  }

  lemma {:induction false} TrimLeftStarts(s: string)
    ensures var t := TrimLeft(s); t == "" || !IsSpace(t[0])
  {
    if s != "" && IsSpace(s[0]) {
      TrimLeftStarts(s[1..]);
    }
  }

  /** TrimSpace lands in the trimmed texts and is the identity exactly on them. */
  lemma TrimSpaceFixpoints(s: string)
    ensures Trimmed(TrimSpace(s))
    ensures TrimSpace(s) == s <==> Trimmed(s)
  {
    TrimLeftStarts(s);
    TrimRightEnds(TrimLeft(s));
  }

  lemma TrimSpaceBlank(w: string)
    requires AllSpace(w)
    ensures TrimSpace(w) == ""
  {
    TrimSpacePadded(w, "", "");
    assert w + "" + "" == w;
  }

  // ---------- searching ----------

  predicate HasSuffix(s: string, suffix: string) {
    |suffix| <= |s| && s[|s| - |suffix|..] == suffix
  }

  predicate Free(s: string, c: char) {
    forall i :: 0 <= i < |s| ==> s[i] != c
  }

  /** strings.Index for a one-character needle. */
  function IndexOf(s: string, c: char): (r: int)
    ensures -1 <= r < |s|
    ensures r >= 0 ==> s[r] == c && Free(s[..r], c)
    ensures r < 0 <==> Free(s, c)
  {
    if s == "" then -1
    else if s[0] == c then 0
    else
      var r := IndexOf(s[1..], c);
      assert forall i :: 0 < i < |s| ==> s[i] == s[1..][i - 1];
      if r < 0 then -1 else
        assert s[..r + 1] == [s[0]] + s[1..][..r];
        r + 1
  }

  /** strings.LastIndex for a one-character needle. */
  function LastIndexOf(s: string, c: char): (r: int)
    ensures -1 <= r < |s|
    ensures r >= 0 ==> s[r] == c
    ensures forall i :: r < i < |s| ==> s[i] != c
  {
    if s == "" then -1
    else if s[|s| - 1] == c then |s| - 1
    else
      var r := LastIndexOf(s[..|s| - 1], c);
      assert forall i :: r < i < |s| - 1 ==> s[i] == s[..|s| - 1][i];
      r
  }

  lemma FirstColonOf(p: string, c: char, rest: string)
    requires Free(p, c)
    ensures IndexOf(p + [c] + rest, c) == |p|
  {
    var s := p + [c] + rest;
    var r := IndexOf(s, c);
    assert s[|p|] == c;
    assert forall i :: 0 <= i < |p| ==> s[i] == p[i];
    assert forall i :: 0 <= i < r ==> s[..r][i] == s[i];
  }

  /** strings.Split on a one-character separator. */
  function Split(s: string, sep: char): (parts: seq<string>)
    ensures |parts| > 0
    decreases |s|
  {
    var i := IndexOf(s, sep);
    if i < 0 then [s] else [s[..i]] + Split(s[i + 1..], sep)
  }

  lemma SplitFirst(p: string, sep: char, rest: string)
    requires Free(p, sep)
    ensures Split(p, sep) == [p]
    ensures Split(p + [sep] + rest, sep) == [p] + Split(rest, sep)
  {
    var s := p + [sep] + rest;
    FirstColonOf(p, sep, rest);
    assert s[..|p|] == p && s[|p| + 1..] == rest;
  }

  lemma SplitAt(s: string, sep: char, i: nat)
    requires i < |s| && s[i] == sep && Free(s[..i], sep)
    ensures Split(s, sep) == [s[..i]] + Split(s[i + 1..], sep)
  {
    assert s == s[..i] + [sep] + s[i + 1..];
    SplitFirst(s[..i], sep, s[i + 1..]);
  }

  lemma {:induction false} SplitJoined(a: string, sep: char, b: string)
    ensures Split(a + [sep] + b, sep) == Split(a, sep) + Split(b, sep)
    decreases |a|
  {
    var i := IndexOf(a, sep);
    var s := a + [sep] + b;
    if i < 0 {
      SplitFirst(a, sep, b);
    } else {
      assert s[..i] == a[..i] && s[i + 1..] == a[i + 1..] + [sep] + b;
      SplitAt(s, sep, i);
      SplitAt(a, sep, i);
      SplitJoined(a[i + 1..], sep, b);
      Associates([a[..i]], Split(a[i + 1..], sep), Split(b, sep));
    }
  }

  // ---------- letter case ----------

  /**
   * unicode.ToLower as far as its result can be an ASCII letter of a fault code:
   * besides A-Z only U+0130 has an ASCII lower case among the letters compared.
   */
  function LowerChar(c: char): char {
    if 'A' <= c <= 'Z' then c + 32 as char else if c == '\U{130}' then 'i' else c
  }

  function ToLower(s: string): (r: string)
    ensures |r| == |s|
  {
    seq(|s|, i requires 0 <= i < |s| => LowerChar(s[i]))
  }

  // ---------- decimal numbers ----------

  const MIN_INT64: int := -0x8000_0000_0000_0000
  const MAX_INT64: int := 0x7fff_ffff_ffff_ffff

  predicate IsDigit(c: char) {
    '0' <= c <= '9'
  }

  predicate AllDigits(s: string) {
    forall i :: 0 <= i < |s| ==> IsDigit(s[i])
  }

  function DigitsValue(s: string): nat
    requires AllDigits(s)
  {
    if s == "" then 0 else DigitsValue(s[..|s| - 1]) * 10 + (s[|s| - 1] - '0') as nat
  }

  function DigitChar(d: nat): (c: char)
    requires d < 10
    ensures IsDigit(c) && (c - '0') as nat == d
  {
    '0' + d as char
  }

  function NatDigits(n: nat): (s: string)
    ensures s != "" && AllDigits(s)
    decreases n
  {
    if n < 10 then [DigitChar(n)] else NatDigits(n / 10) + [DigitChar(n % 10)]
  }

  lemma {:induction false} NatDigitsValue(n: nat)
    ensures DigitsValue(NatDigits(n)) == n
  {
    if n < 10 {
      assert [DigitChar(n)][..0] == "";
      assert DigitsValue([DigitChar(n)]) == DigitsValue("") * 10 + n;
    } else {
      NatDigitsValue(n / 10);
      var s := NatDigits(n);
      assert s[..|s| - 1] == NatDigits(n / 10);
    }
  }

  /** strconv.Itoa. */
  function Itoa(n: int): string {
    if n < 0 then "-" + NatDigits(-n) else NatDigits(n)
  }

  /** strconv.Atoi: an optional sign, at least one digit, and a value that fits 64 bits. */
  function Atoi(s: string): Option<int> {
    var signed := s != "" && (s[0] == '-' || s[0] == '+');
    var digits := if signed then s[1..] else s;
    if digits == "" || !AllDigits(digits) then None
    else
      var magnitude: int := DigitsValue(digits);
      var v := if signed && s[0] == '-' then -magnitude else magnitude;
      if MIN_INT64 <= v <= MAX_INT64 then Some(v) else None
  }

  /** Printing and reading back a 64-bit integer is the identity; wider ones are refused. */
  lemma AtoiItoa(n: int)
    ensures Atoi(Itoa(n)) == if MIN_INT64 <= n <= MAX_INT64 then Some(n) else None
  {
    var d := NatDigits(if n < 0 then -n else n);
    NatDigitsValue(if n < 0 then -n else n);
    assert IsDigit(d[0]);
    if n < 0 {
      assert Itoa(n)[1..] == d;
    }
  }

  // ---------- SOAP array types ----------

  /** The text a generator writes for an array of n items (section 5.4.2 of SOAP 1.1). */
  function ArrayType(prefix: string, item: string, n: nat): string {
    prefix + ":" + item + "[" + NatDigits(n) + "]"
  }

  /** What ^[^:]+:item\[(\d+)\]$ accepts, and the digits it captures. */
  ghost predicate ArrayTypeForm(s: string, item: string, digits: string) {
    && digits != "" && AllDigits(digits)
    && exists p: string :: p != "" && Free(p, ':') && s == p + ":" + item + "[" + digits + "]"
  }

  /** The capture of ^[^:]+:item\[(\d+)\]$, if it matches. */
  function MatchArrayType(s: string, item: string): Option<string> {
    var colon := IndexOf(s, ':');
    if colon <= 0 then None
    else
      var head := item + "[";
      var rest := s[colon + 1..];
      if |rest| < |head| + 2 || rest[..|head|] != head || rest[|rest| - 1] != ']' then None
      else
        var digits := rest[|head|..|rest| - 1];
        if AllDigits(digits) then Some(digits) else None
  }

  lemma MatchArrayTypeSound(s: string, item: string, digits: string)
    requires MatchArrayType(s, item) == Some(digits)
    ensures ArrayTypeForm(s, item, digits)
  {
    var colon := IndexOf(s, ':');
    var p, rest := s[..colon], s[colon + 1..];
    assert s == p + ":" + rest;
    assert rest == item + "[" + digits + "]";
    assert p + ":" + (item + "[" + digits + "]") == p + ":" + item + "[" + digits + "]";
  }

  lemma MatchArrayTypeComplete(p: string, item: string, digits: string)
    requires p != "" && Free(p, ':') && digits != "" && AllDigits(digits)
    ensures MatchArrayType(p + ":" + item + "[" + digits + "]", item) == Some(digits)
  {
    var rest := item + "[" + digits + "]";
    var s := p + [':'] + rest;
    assert s == p + ":" + item + "[" + digits + "]";
    FirstColonOf(p, ':', rest);
    assert s[|p| + 1..] == rest;
    assert rest[..|item| + 1] == item + "[";
    assert rest[|item| + 1..|rest| - 1] == digits;
  }

  /** The matcher accepts exactly the strings of the pattern, with exactly that capture. */
  lemma MatchArrayTypeExact(s: string, item: string, digits: string)
    ensures MatchArrayType(s, item) == Some(digits) <==> ArrayTypeForm(s, item, digits)
  {
    if MatchArrayType(s, item) == Some(digits) {
      MatchArrayTypeSound(s, item, digits);
    }
    if ArrayTypeForm(s, item, digits) {
      var p: string :| p != "" && Free(p, ':') && s == p + ":" + item + "[" + digits + "]";
      MatchArrayTypeComplete(p, item, digits);
    }
  }

  /** The generated array type is accepted and its count is read back. */
  lemma ArrayTypeRoundTrip(prefix: string, item: string, n: nat)
    requires prefix != "" && Free(prefix, ':')
    ensures MatchArrayType(ArrayType(prefix, item, n), item) == Some(NatDigits(n))
    ensures n <= MAX_INT64 ==> Atoi(NatDigits(n)) == Some(n)
  {
    MatchArrayTypeComplete(prefix, item, NatDigits(n));
    AtoiItoa(n);
  }
}
