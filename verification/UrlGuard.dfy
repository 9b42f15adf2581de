/** The guard every URL passes before the server fetches it: which hosts are IP addresses in disguise,
    which URLs are accepted, and how redirects are followed. */
module UrlGuard {
  import opened Numerals
  import opened Prelude

  /** An IPv4 address is its 32-bit number. IPv6 addresses stay abstract. */
  datatype Address = V4(number: nat) | V6(id: nat)

  const WORD := 0x1_0000_0000

  // ---- strings ----

  /** What Python's strip() takes off. */
  predicate IsSpace(c: char) {
    var n := c as int;
    || 9 <= n <= 13 || 28 <= n <= 32 || n == 0x85 || n == 0xa0 || n == 0x1680 || 0x2000 <= n <= 0x200a
    || n == 0x2028 || n == 0x2029 || n == 0x202f || n == 0x205f || n == 0x3000
  }

  predicate IsBracket(c: char) {
    c == '[' || c == ']'
  }

  function Strip(s: string, off: char -> bool): (r: string)
    ensures r != "" ==> !off(r[0]) && !off(r[|r| - 1])
    ensures s != "" && !off(s[0]) && !off(s[|s| - 1]) ==> r == s
  {
    if s == "" then ""
    else if off(s[0]) then Strip(s[1..], off)
    else if off(s[|s| - 1]) then Strip(s[..|s| - 1], off)
    else s
  }

  function Stripped(host: string): string {
    Strip(Strip(host, IsSpace), IsBracket)
  }

  /** Python's split("."). */
  function Split(s: string): (parts: seq<string>)
    ensures |parts| > 0
  {
    if s == "" then [""]
    else
      var parts, last := Split(s[..|s| - 1]), s[|s| - 1];
      if last == '.' then parts + [""] else parts[|parts| - 1 := parts[|parts| - 1] + [last]]
  }

  function Join(parts: seq<string>): string
    requires |parts| > 0
  {
    if |parts| == 1 then parts[0] else Join(parts[..|parts| - 1]) + "." + parts[|parts| - 1]
  }

  lemma JoinGrows(parts: seq<string>, c: char)
    requires |parts| > 0
    ensures Join(parts + [""]) == Join(parts) + "."
    ensures Join(parts[|parts| - 1 := parts[|parts| - 1] + [c]]) == Join(parts) + [c]
  {
    var n := |parts| - 1;
    var longer := parts[n := parts[n] + [c]];
    assert (parts + [""])[..n + 1] == parts;
    assert longer[..n] == parts[..n] && longer[n] == parts[n] + [c];
  }

  lemma {:induction false} JoinOfSplit(s: string)
    ensures Join(Split(s)) == s
  {
    if s == "" {
    } else {
      var parts, last := Split(s[..|s| - 1]), s[|s| - 1];
      JoinOfSplit(s[..|s| - 1]);
      JoinGrows(parts, last);
      assert s == s[..|s| - 1] + [last];
    }
  }

  lemma {:induction false} SplitAppend(s: string, p: string)
    requires '.' !in p
    ensures var parts, n := Split(s), |Split(s)| - 1; Split(s + p) == parts[n := parts[n] + p]
  {
    if p == "" {
      assert s + p == s;
      var parts, n := Split(s), |Split(s)| - 1;
      assert parts[n] + p == parts[n];
    } else {
      var init, last := p[..|p| - 1], p[|p| - 1];
      assert last in p;
      assert p == init + [last];
      SplitAppend(s, init);
      assert (s + p)[..|s + p| - 1] == s + init;
      var parts, n := Split(s), |Split(s)| - 1;
      assert parts[n] + p == parts[n] + init + [last];
    }
  }

  lemma {:induction false} SplitOfJoin(parts: seq<string>)
    requires |parts| > 0 && forall k | 0 <= k < |parts| :: '.' !in parts[k]
    ensures Split(Join(parts)) == parts
  {
    var n := |parts| - 1;
    var last := parts[n];
    if n == 0 {
      SplitAppend("", last);
      assert "" + last == last;
    } else {
      var front := Join(parts[..n]);
      SplitOfJoin(parts[..n]);
      assert (front + ".")[..|front|] == front;
      SplitAppend(front + ".", last);
      assert "" + last == last;
    }
  }

  // ---- reading a host as an address ----

  predicate HexToken(t: string) {
    |t| > 2 && t[0] == '0' && (t[1] == 'x' || t[1] == 'X') && AllDigits(t[2..], 16)
  }

  predicate OctalToken(t: string) {
    |t| > 1 && t[0] == '0' && AllDigits(t[1..], 8)
  }

  predicate DecimalToken(t: string) {
    |t| > 0 && AllDigits(t, 10)
  }

  /** One numeric token: 0x means hexadecimal, a leading zero octal. An 8 or 9 after a leading zero is
      an error. */
  function IntAny(t: string): Option<nat>
    requires HexToken(t) || DecimalToken(t)
  {
    if HexToken(t) then Some(Value(t[2..], 16))
    else if t[0] == '0' && |t| > 1 then if AllDigits(t, 8) then Some(Value(t, 8)) else None
    else Some(Value(t, 10))
  }

  /** Four octets, the first the most significant. */
  function Pack(octets: seq<nat>): nat
    requires |octets| == 4
  {
    ((octets[0] % 256 * 256 + octets[1] % 256) * 256 + octets[2] % 256) * 256 + octets[3] % 256
  }

  /** An octet as the ipaddress module reads it: decimal, no leading zero, three digits at most. */
  predicate LiteralOctet(p: string) {
    DecimalToken(p) && |p| <= 3 && (p != "0" ==> p[0] != '0') && Value(p, 10) <= 255
  }

  predicate LiteralOctets(parts: seq<string>) {
    |parts| == 4 && LiteralOctet(parts[0]) && LiteralOctet(parts[1]) && LiteralOctet(parts[2]) && LiteralOctet(parts[3])
  }

  function Octets(parts: seq<string>): (octets: seq<nat>)
    requires LiteralOctets(parts)
    ensures |octets| == 4 && octets[0] <= 255 && octets[1] <= 255 && octets[2] <= 255 && octets[3] <= 255
  {
    [Value(parts[0], 10), Value(parts[1], 10), Value(parts[2], 10), Value(parts[3], 10)]
  }

  function Literal(h: string): Option<Address> {
    if LiteralOctets(Split(h)) then Some(V4(Pack(Octets(Split(h))))) else None
  }

  function Dotted(h: string): Option<Address> {
    var parts := Split(h);
    if |parts| == 4 && forall k | 0 <= k < 4 :: HexToken(parts[k]) || DecimalToken(parts[k]) then
      var a, b, c, d := IntAny(parts[0]), IntAny(parts[1]), IntAny(parts[2]), IntAny(parts[3]);
      if a.Some? && b.Some? && c.Some? && d.Some? then Some(V4(Pack([a.value, b.value, c.value, d.value]))) else None
    else
      None
  }

  lemma OctalsAreDecimals(t: string)
    ensures OctalToken(t) ==> DecimalToken(t)
  {
    if OctalToken(t) {
      assert forall i | 0 < i < |t| :: t[i] == t[1..][i - 1];
    }
  }

  /** `six` reads IPv6 text, which always has a colon in it. */
  function ParseStripped(h: string, six: string -> Option<nat>): Option<Address> {
    if Literal(h).Some? then Literal(h)
    else if ':' in h && six(h).Some? then Some(V6(six(h).value))
    else if HexToken(h) || OctalToken(h) || DecimalToken(h) then
      OctalsAreDecimals(h);
      match IntAny(h)
      case Some(n) => Some(V4(n % WORD))
      case None => None
    else Dotted(h)
  }

  function Parse(host: string, six: string -> Option<nat>): Option<Address> {
    ParseStripped(Stripped(host), six)
  }

  // ---- what a spelling is ----

  /** The spellings of a number: plain decimal, 0x and hexadecimal digits, 0 and octal digits. */
  predicate Spells(t: string, n: nat) {
    || t == Render(n, 10)
    || (HexToken(t) && Value(t[2..], 16) == n)
    || (OctalToken(t) && Value(t[1..], 8) == n)
  }

  /** In front of hexadecimal digits any number of zeros is as good as none. */
  lemma HexSpelling(n: nat, zeros: nat, x: char)
    requires x == 'x' || x == 'X'
    ensures Spells(['0', x] + (Zeros(zeros) + Render(n, 16)), n)
  {
    var digits := Zeros(zeros) + Render(n, 16);
    ValueOfRender(n, 16);
    LeadingZeros(zeros, Render(n, 16), 16);
    assert (['0', x] + digits)[2..] == digits;
  }

  /** So in front of octal digits. */
  lemma OctalSpelling(n: nat, zeros: nat)
    ensures Spells("0" + (Zeros(zeros) + Render(n, 8)), n)
  {
    var digits := Zeros(zeros) + Render(n, 8);
    ValueOfRender(n, 8);
    LeadingZeros(zeros, Render(n, 8), 8);
    assert ("0" + digits)[1..] == digits;
  }

  /** A token is read as a number exactly if it spells that number. */
  lemma TokensAreSpellings(t: string, n: nat)
    ensures Spells(t, n) <==> (HexToken(t) || DecimalToken(t)) && IntAny(t) == Some(n)
  {
    if HexToken(t) {
      assert DigitValue(t[1]) == 16;
    } else if t != "" && t[0] == '0' && |t| > 1 {
      assert t == Zeros(1) + t[1..];
      assert forall i | 0 < i < |t| :: t[i] == t[1..][i - 1];
      if AllDigits(t[1..], 8) {
        LeadingZeros(1, t[1..], 8);
      }
    } else if DecimalToken(t) {
      RenderOfValue(t);
      ValueOfRender(n, 10);
    }
  }

  lemma {:induction false} SameDigitsSameValue(s: string, t: string, base: nat)
    requires IsRadix(base) && AllDigits(s, base) && |t| == |s| && forall i | 0 <= i < |s| :: DigitValue(t[i]) == DigitValue(s[i])
    ensures AllDigits(t, base) && Value(t, base) == Value(s, base)
  {
    if s == "" {
    } else {
      SameDigitsSameValue(s[..|s| - 1], t[..|t| - 1], base);
    }
  }

  lemma CaseOfDigits(s: string, t: string)
    requires Lower(s) == Lower(t)
    ensures |s| == |t| && forall i | 0 <= i < |s| :: DigitValue(t[i]) == DigitValue(s[i])
  {
    assert |s| == |Lower(s)| == |t|;
    forall i | 0 <= i < |s| ensures DigitValue(t[i]) == DigitValue(s[i]) {
      assert Lower(s)[i] == Lower(t)[i];
      DigitValues(s[i]);
      DigitValues(t[i]);
    }
  }

  /** The case of a hexadecimal spelling's letters does not matter. */
  lemma HexCaseDoesNotMatter(t: string, u: string)
    requires HexToken(t) && Lower(t) == Lower(u)
    ensures HexToken(u) && Value(u[2..], 16) == Value(t[2..], 16)
  {
    CaseOfDigits(t, u);
    assert Lower(t)[0] == Lower(u)[0] && Lower(t)[1] == Lower(u)[1];
    SameDigitsSameValue(t[2..], u[2..], 16);
  }

  lemma QuotientIs(q: nat, d: nat, base: nat)
    requires IsRadix(base) && d < base && q > 0
    ensures Quotient(Times(q, base) + d, base) == q && Times(q, base) + d >= base
  {
  }

  lemma RenderMore(q: nat, d: nat, base: nat)
    requires IsRadix(base) && d < base && q > 0
    ensures Render(Times(q, base) + d, base) == Render(q, base) + [DigitChar(d)]
  {
    QuotientIs(q, d, base);
  }

  lemma LowerDigit(c: char)
    requires DigitValue(c) < 16
    ensures Lower([c]) == [DigitChar(DigitValue(c))]
  {
  }

  lemma LowerSnoc(s: string, c: char)
    ensures Lower(s + [c]) == Lower(s) + Lower([c])
  {
  }

  /** Digits are the rendering of their value, up to case and zeros in front. */
  lemma {:induction false} DigitsOf(s: string, base: nat) returns (k: nat)
    requires IsRadix(base) && s != "" && AllDigits(s, base)
    ensures Lower(s) == Zeros(k) + Render(Value(s, base), base)
  {
    var init, last := s[..|s| - 1], s[|s| - 1];
    if init == "" {
      k := 0;
      OneDigit(s, base);
    } else {
      k := DigitsOf(init, base);
      LowerSnoc(init, last);
      LowerDigit(last);
      assert s == init + [last];
      k := DigitsMore(Lower(init), k, Value(init, base), DigitValue(last), base);
    }
  }

  lemma OneDigit(s: string, base: nat)
    requires IsRadix(base) && |s| == 1 && AllDigits(s, base)
    ensures Lower(s) == Zeros(0) + Render(Value(s, base), base)
  {
    var d := DigitValue(s[0]);
    assert s == [s[0]] && s[..|s| - 1] == "";
    LowerDigit(s[0]);
    assert Value(s, base) == Times(0, base) + d == d;
    assert Render(d, base) == [DigitChar(d)] == Zeros(0) + [DigitChar(d)];
  }

  lemma DigitsMore(s: string, k: nat, q: nat, d: nat, base: nat) returns (k': nat)
    requires IsRadix(base) && d < base && s == Zeros(k) + Render(q, base)
    ensures s + [DigitChar(d)] == Zeros(k') + Render(Times(q, base) + d, base)
  {
    if q == 0 {
      k' := k + 1;
      assert Zeros(k) + "0" == Zeros(k + 1);
    } else {
      k' := k;
      RenderMore(q, d, base);
    }
  }

  /** The spellings in full: the decimal one; 0x, any zeros and the hexadecimal one, in any case; a zero, any
      zeros and the octal one. */
  lemma SpellsExactlyIf(t: string, n: nat)
    ensures Spells(t, n) <==>
      || t == Render(n, 10)
      || (exists k: nat :: Lower(t) == "0x" + (Zeros(k) + Render(n, 16)))
      || (exists k: nat :: t == "0" + (Zeros(k) + Render(n, 8)))
  {
    if HexToken(t) && Value(t[2..], 16) == n {
      var k := HexInFull(t, n);
    }
    if OctalToken(t) && Value(t[1..], 8) == n {
      var k := OctalInFull(t, n);
    }
    if k: nat :| Lower(t) == "0x" + (Zeros(k) + Render(n, 16)) {
      HexAnyCase(t, n, k);
    }
    if k: nat :| t == "0" + (Zeros(k) + Render(n, 8)) {
      OctalSpelling(n, k);
    }
  }

  lemma HexInFull(t: string, n: nat) returns (k: nat)
    requires HexToken(t) && Value(t[2..], 16) == n
    ensures Lower(t) == "0x" + (Zeros(k) + Render(n, 16))
  {
    k := DigitsOf(t[2..], 16);
    LowerHead(t);
  }

  lemma OctalInFull(t: string, n: nat) returns (k: nat)
    requires OctalToken(t) && Value(t[1..], 8) == n
    ensures t == "0" + (Zeros(k) + Render(n, 8))
  {
    k := DigitsOf(t[1..], 8);
    OctalIsLower(t[1..]);
    assert t == "0" + t[1..];
  }

  lemma HexAnyCase(t: string, n: nat, k: nat)
    requires Lower(t) == "0x" + (Zeros(k) + Render(n, 16))
    ensures HexToken(t) && Value(t[2..], 16) == n
  {
    var u := "0x" + (Zeros(k) + Render(n, 16));
    ValueOfRender(n, 16);
    LeadingZeros(k, Render(n, 16), 16);
    assert u[2..] == Zeros(k) + Render(n, 16);
    LowerIsLower(u, t);
    HexCaseDoesNotMatter(u, t);
  }

  lemma LowerHead(t: string)
    requires HexToken(t)
    ensures Lower(t) == "0x" + Lower(t[2..])
  {
    assert t[1] == 'x' || t[1] == 'X';
    forall i | 2 <= i < |t| ensures Lower(t)[i] == Lower(t[2..])[i - 2] {
      assert t[i] == t[2..][i - 2];
    }
  }

  lemma OctalIsLower(s: string)
    requires AllDigits(s, 8)
    ensures Lower(s) == s
  {
    forall i | 0 <= i < |s| ensures Lower(s)[i] == s[i] {
      DigitValues(s[i]);
    }
  }

  lemma LowerIsLower(s: string, t: string)
    requires s == Lower(t)
    ensures Lower(s) == Lower(t)
  {
  }

  predicate Plain(t: string) {
    forall i | 0 <= i < |t| :: DigitValue(t[i]) < 16 || t[i] == 'x' || t[i] == 'X'
  }

  lemma SpellingsArePlain(t: string, n: nat)
    requires Spells(t, n)
    ensures t != "" && Plain(t)
  {
    if HexToken(t) {
      assert forall i | 2 <= i < |t| :: t[i] == t[2..][i - 2];
    } else if OctalToken(t) {
      assert forall i | 1 <= i < |t| :: t[i] == t[1..][i - 1];
    }
  }

  predicate AllSpell(parts: seq<string>, octets: seq<nat>) {
    |parts| == |octets| == 4 && forall k | 0 <= k < 4 :: Spells(parts[k], octets[k])
  }

  // ---- every spelling decodes to the same address ----

  lemma PlainEnds(h: string)
    requires h != "" && (DigitValue(h[0]) < 16 || h[0] == 'x' || h[0] == 'X')
    requires DigitValue(h[|h| - 1]) < 16 || h[|h| - 1] == 'x' || h[|h| - 1] == 'X'
    ensures Stripped(h) == h
  {
  }

  /** A host that spells a number is that number's low 32 bits. */
  lemma NumberHost(h: string, n: nat, six: string -> Option<nat>)
    requires Spells(h, n)
    ensures Parse(h, six) == Some(V4(n % WORD))
  {
    SpellingsArePlain(h, n);
    PlainEnds(h);
    TokensAreSpellings(h, n);
    OneToken(h, n, six);
  }

  lemma {:induction false} StripLeft(pre: string, s: string, off: char -> bool)
    requires forall i | 0 <= i < |pre| :: off(pre[i])
    ensures Strip(pre + s, off) == Strip(s, off)
  {
    if pre == "" {
      assert pre + s == s;
    } else {
      assert (pre + s)[1..] == pre[1..] + s;
      StripLeft(pre[1..], s, off);
    }
  }

  lemma {:induction false} StripLast(s: string, c: char, off: char -> bool)
    requires off(c)
    ensures Strip(s + [c], off) == Strip(s, off)
  {
    if s == "" {
      assert (s + [c])[1..] == "";
    } else if off(s[0]) {
      assert (s + [c])[1..] == s[1..] + [c];
      StripLast(s[1..], c, off);
    } else {
      assert (s + [c])[..|s|] == s;
    }
  }

  lemma {:induction false} StripRight(s: string, post: string, off: char -> bool)
    requires forall i | 0 <= i < |post| :: off(post[i])
    ensures Strip(s + post, off) == Strip(s, off)
  {
    if post == "" {
      assert s + post == s;
    } else {
      var init, last := post[..|post| - 1], post[|post| - 1];
      assert s + post == (s + init) + [last];
      StripLast(s + init, last, off);
      StripRight(s, init, off);
    }
  }

  predicate Blank(s: string) {
    forall i | 0 <= i < |s| :: s[i] in {' ', '\t', '\n', '\r'}
  }

  lemma BlanksStripped(pre: string, s: string, post: string)
    requires Blank(pre) && Blank(post)
    ensures Strip(pre + s + post, IsSpace) == Strip(s, IsSpace)
  {
    StripRight(pre + s, post, IsSpace);
    StripLeft(pre, s, IsSpace);
  }

  lemma BracketsStripped(h: string)
    requires Stripped(h) == h != "" && !IsSpace(h[0])
    ensures Stripped("[" + h + "]") == h
  {
    var s := "[" + h + "]";
    assert Strip(s, IsSpace) == s;
    StripRight("[" + h, "]", IsBracket);
    StripLeft("[", h, IsBracket);
    StripTwice(h);
  }

  lemma StripTwice(h: string)
    requires Stripped(h) == h != "" && !IsSpace(h[0])
    ensures Strip(h, IsBracket) == h
  {
    StripShrinks(h, IsSpace);
    StripShrinks(Strip(h, IsSpace), IsBracket);
  }

  lemma {:induction false} StripShrinks(s: string, off: char -> bool)
    ensures |Strip(s, off)| <= |s| && (|Strip(s, off)| == |s| ==> Strip(s, off) == s)
  {
    if s == "" {
    } else if off(s[0]) {
      StripShrinks(s[1..], off);
    } else if off(s[|s| - 1]) {
      StripShrinks(s[..|s| - 1], off);
    }
  }

  /** Blanks around a host, and brackets inside them, do not hide its address. */
  lemma PaddedHost(pre: string, h: string, post: string, n: nat, six: string -> Option<nat>)
    requires Spells(h, n) && Blank(pre) && Blank(post)
    ensures Parse(pre + h + post, six) == Some(V4(n % WORD)) == Parse(pre + ("[" + h + "]") + post, six)
  {
    SpellingsArePlain(h, n);
    PlainEnds(h);
    NumberHost(h, n, six);
    BlanksStripped(pre, h, post);
    BlanksStripped(pre, "[" + h + "]", post);
    BracketsStripped(h);
  }

  lemma OneToken(h: string, n: nat, six: string -> Option<nat>)
    requires (HexToken(h) || DecimalToken(h)) && IntAny(h) == Some(n) && Plain(h)
    ensures ParseStripped(h, six) == Some(V4(n % WORD))
  {
    assert ':' !in h && '.' !in h;
    SplitAppend("", h);
    assert "" + h == h;
    assert Literal(h) == None;
  }

  /** A dotted host is made of the low 8 bits of each part, whatever radix each part is written in. */
  lemma DottedHost(parts: seq<string>, octets: seq<nat>, six: string -> Option<nat>)
    requires AllSpell(parts, octets)
    ensures Parse(Join(parts), six) == Some(V4(Pack(octets)))
    ensures Stripped(Join(parts)) == Join(parts) && PlainStart(Join(parts))
  {
    var h := Join(parts);
    forall k | 0 <= k < 4 ensures '.' !in parts[k] && parts[k] != "" && Plain(parts[k]) {
      SpellingsArePlain(parts[k], octets[k]);
    }
    SplitOfJoin(parts);
    DottedShape(parts[0], parts[1], parts[2], parts[3]);
    JoinOfFour(parts);
    DotsAreNoToken(h, |parts[0]|);
    DottedReads(h, parts, octets);
    if Literal(h).Some? {
      LiteralAgrees(h, parts, octets);
    }
  }

  predicate PlainStart(h: string) {
    h != "" && (DigitValue(h[0]) < 16 || h[0] == 'x' || h[0] == 'X')
  }

  lemma DottedShape(a: string, b: string, c: string, d: string)
    requires Plain(a) && Plain(b) && Plain(c) && Plain(d) && a != "" && d != ""
    ensures var h := a + "." + b + "." + c + "." + d;
      Stripped(h) == h && ':' !in h && h[|a|] == '.' && PlainStart(h)
  {
    var h := a + "." + b + "." + c + "." + d;
    assert h[0] == a[0] && h[|h| - 1] == d[|d| - 1];
    PlainEnds(h);
    NoColon(a, ".");
    NoColon(a + ".", b);
    NoColon(a + "." + b, ".");
    NoColon(a + "." + b + ".", c);
    NoColon(a + "." + b + "." + c, ".");
    NoColon(a + "." + b + "." + c + ".", d);
  }

  lemma NoColon(s: string, t: string)
    requires (Plain(s) || ':' !in s) && (Plain(t) || ':' !in t)
    ensures ':' !in s + t
  {
  }

  lemma DotsAreNoToken(h: string, i: nat)
    requires 0 < i < |h| && h[i] == '.'
    ensures !HexToken(h) && !OctalToken(h) && !DecimalToken(h)
  {
    assert DigitValue(h[i]) == 16;
    assert i >= 2 ==> h[2..][i - 2] == '.';
    assert h[1..][i - 1] == '.';
  }

  lemma DottedReads(h: string, parts: seq<string>, octets: seq<nat>)
    requires AllSpell(parts, octets) && Split(h) == parts
    ensures Dotted(h) == Some(V4(Pack(octets)))
  {
    TokensAreSpellings(parts[0], octets[0]);
    TokensAreSpellings(parts[1], octets[1]);
    TokensAreSpellings(parts[2], octets[2]);
    TokensAreSpellings(parts[3], octets[3]);
    assert Dotted(h) == Some(V4(Pack([octets[0], octets[1], octets[2], octets[3]])));
  }

  /** The literal reading and the any-radix reading agree where both apply. */
  lemma LiteralAgrees(h: string, parts: seq<string>, octets: seq<nat>)
    requires AllSpell(parts, octets) && Split(h) == parts && Literal(h).Some?
    ensures Literal(h) == Some(V4(Pack(octets)))
  {
    LiteralReads(parts[0], octets[0]);
    LiteralReads(parts[1], octets[1]);
    LiteralReads(parts[2], octets[2]);
    LiteralReads(parts[3], octets[3]);
  }

  lemma LiteralReads(p: string, n: nat)
    requires LiteralOctet(p) && Spells(p, n)
    ensures Value(p, 10) == n
  {
    TokensAreSpellings(p, n);
  }

  lemma JoinOfFour(parts: seq<string>)
    requires |parts| == 4
    ensures Join(parts) == parts[0] + "." + parts[1] + "." + parts[2] + "." + parts[3]
  {
    assert parts[..3][..2] == parts[..2] && parts[..2][..1] == parts[..1];
    assert Join(parts[..1]) == parts[0];
    assert Join(parts[..2]) == parts[0] + "." + parts[1];
    assert Join(parts[..3]) == parts[0] + "." + parts[1] + "." + parts[2];
  }

  function Canonical(octets: seq<nat>): (parts: seq<string>)
    requires |octets| == 4
    ensures AllSpell(parts, octets)
  {
    [Render(octets[0], 10), Render(octets[1], 10), Render(octets[2], 10), Render(octets[3], 10)]
  }

  lemma PackLow(octets: seq<nat>, low: seq<nat>)
    requires |octets| == |low| == 4 && forall k | 0 <= k < 4 :: low[k] == octets[k] % 256
    ensures Pack(low) == Pack(octets)
  {
    assert forall k | 0 <= k < 4 :: low[k] % 256 == low[k];
  }

  /** The number whose octets, from the most significant on, these are. */
  predicate HasOctets(n: nat, octets: seq<nat>) {
    && |octets| == 4 && octets[0] < 256 && octets[1] < 256 && octets[2] < 256 && octets[3] < 256
    && n == octets[0] * 0x100_0000 + octets[1] * 0x1_0000 + octets[2] * 0x100 + octets[3]
  }

  /** Every 32-bit number has octets: its quotient by 2^24, and so on down. */
  lemma OctetsOf(n: nat)
    requires n < 0x1_0000_0000
    ensures HasOctets(n, [n / 0x100_0000, n / 0x1_0000 % 256, n / 0x100 % 256, n % 256])
  {
    assert n / 0x1_0000 == n / 0x100 / 256 && n / 0x100_0000 == n / 0x1_0000 / 256;
  }

  lemma PackOctets(n: nat, octets: seq<nat>)
    requires HasOctets(n, octets)
    ensures Pack(octets) == n < WORD
  {
  }

  lemma SmallNumberHost(h: string, n: nat, six: string -> Option<nat>)
    requires Spells(h, n) && n < 0x1_0000_0000
    ensures Parse(h, six) == Some(V4(n))
  {
    NumberHost(h, n, six);
    SmallModulo(n);
  }

  lemma SmallModulo(n: nat)
    requires n < WORD
    ensures n % WORD == n
  {
  }

  lemma OctetsHost(parts: seq<string>, octets: seq<nat>, n: nat, six: string -> Option<nat>)
    requires HasOctets(n, octets) && AllSpell(parts, octets)
    ensures Parse(Join(parts), six) == Some(V4(n))
  {
    DottedHost(parts, octets, six);
    PackOctets(n, octets);
  }

  /** The dotted and the single-number forms of an address agree: any spellings of the four octets of a
      number, joined by dots, and any spelling of the number itself, are read as that number. */
  lemma DottedIsTheNumber(n: nat, octets: seq<nat>, parts: seq<string>, h: string, six: string -> Option<nat>)
    requires HasOctets(n, octets) && AllSpell(parts, octets) && Spells(h, n)
    ensures Parse(Join(parts), six) == Some(V4(n)) == Parse(h, six)
  {
    OctetsHost(parts, octets, n, six);
    PackOctets(n, octets);
    SmallNumberHost(h, n, six);
  }

  /** So a dotted host means what the dotted decimal of its octets' low 8 bits means. */
  lemma DottedIsCanonical(parts: seq<string>, octets: seq<nat>, low: seq<nat>, six: string -> Option<nat>)
    requires AllSpell(parts, octets) && |low| == 4 && forall k | 0 <= k < 4 :: low[k] == octets[k] % 256
    ensures Parse(Join(parts), six) == Parse(Join(Canonical(low)), six)
  {
    PackLow(octets, low);
    SameAddress(parts, octets, Canonical(low), low, six);
  }

  lemma SameAddress(parts: seq<string>, octets: seq<nat>, parts': seq<string>, octets': seq<nat>, six: string -> Option<nat>)
    requires AllSpell(parts, octets) && AllSpell(parts', octets') && Pack(octets) == Pack(octets')
    ensures Parse(Join(parts), six) == Parse(Join(parts'), six)
  {
    DottedHost(parts, octets, six);
    DottedHost(parts', octets', six);
  }

  // ---- and nothing else does ----

  ghost predicate Denotes(h: string, number: nat) {
    || (exists n: nat :: Spells(h, n) && number == n % WORD)
    || (exists octets: seq<nat> :: AllSpell(Split(h), octets) && number == Pack(octets))
  }

  lemma LiteralsSpell(p: string) returns (n: nat)
    requires LiteralOctet(p)
    ensures n == Value(p, 10) && Spells(p, n)
  {
    n := Value(p, 10);
    RenderOfValue(p);
  }

  lemma LiteralMeansSpelled(h: string)
    requires Literal(h).Some?
    ensures Denotes(h, Literal(h).value.number)
  {
    var parts := Split(h);
    var a := LiteralsSpell(parts[0]);
    var b := LiteralsSpell(parts[1]);
    var c := LiteralsSpell(parts[2]);
    var d := LiteralsSpell(parts[3]);
    FourSpell(h, a, b, c, d);
  }

  lemma FourSpell(h: string, a: nat, b: nat, c: nat, d: nat)
    requires |Split(h)| == 4 && Spells(Split(h)[0], a) && Spells(Split(h)[1], b) && Spells(Split(h)[2], c) && Spells(Split(h)[3], d)
    ensures Denotes(h, Pack([a, b, c, d]))
  {
    assert AllSpell(Split(h), [a, b, c, d]);
  }

  lemma DottedMeansSpelled(h: string)
    requires Dotted(h).Some?
    ensures Denotes(h, Dotted(h).value.number)
  {
    var parts := Split(h);
    var a, b, c, d := IntAny(parts[0]).value, IntAny(parts[1]).value, IntAny(parts[2]).value, IntAny(parts[3]).value;
    TokensAreSpellings(parts[0], a);
    TokensAreSpellings(parts[1], b);
    TokensAreSpellings(parts[2], c);
    TokensAreSpellings(parts[3], d);
    FourSpell(h, a, b, c, d);
  }

  lemma ReadMeansSpelled(h: string, number: nat, six: string -> Option<nat>)
    requires ParseStripped(h, six) == Some(V4(number))
    ensures Denotes(h, number)
  {
    if Literal(h).Some? {
      LiteralMeansSpelled(h);
    } else if HexToken(h) || OctalToken(h) || DecimalToken(h) {
      OctalsAreDecimals(h);
      TokensAreSpellings(h, IntAny(h).value);
    } else {
      DottedMeansSpelled(h);
    }
  }

  /** Without its padding and brackets a host is read as the IPv4 address `number` exactly if it
      spells it, as one number or as four octets. */
  lemma ReadExactlyIfSpelled(host: string, number: nat, six: string -> Option<nat>)
    ensures Parse(host, six) == Some(V4(number)) <==> Denotes(Stripped(host), number)
  {
    var h := Stripped(host);
    if Parse(host, six) == Some(V4(number)) {
      ReadMeansSpelled(h, number, six);
    }
    if n: nat :| Spells(h, n) && number == n % WORD {
      SpellingsArePlain(h, n);
      TokensAreSpellings(h, n);
      OneToken(h, n, six);
    } else if octets: seq<nat> :| AllSpell(Split(h), octets) && number == Pack(octets) {
      SpelledDotted(h, octets, six);
    }
  }

  lemma SpelledDotted(h: string, octets: seq<nat>, six: string -> Option<nat>)
    requires AllSpell(Split(h), octets)
    ensures ParseStripped(h, six) == Some(V4(Pack(octets))) && PlainStart(h)
  {
    JoinOfSplit(h);
    DottedHost(Split(h), octets, six);
  }

  // ---- accepting a URL ----

  datatype Reason = EmptyUrl | BadScheme | NoHost | BlockedName | BlockedAddress | Unresolved | ResolvesToBlocked
  datatype Verdict = Accepted | Refused(reason: Reason)

  /** A parsed URL: scheme and host in lower case, both empty when missing. */
  datatype Url = Url(text: string, scheme: string, host: string)

  /** What the check asks others for: which addresses are private or reserved, IPv6 text, and the
      addresses a name resolves to. */
  datatype World = World(blocked: Address -> bool, six: string -> Option<nat>, resolve: string -> Option<seq<string>>)

  const BLOCKED_NAMES: set<string> :=
    {"localhost", "ip6-localhost", "ip6-loopback", "metadata.google.internal", "metadata"}

  /** A resolved address is plain text, neither padded nor in another radix. */
  function ResolvedAddress(text: string, six: string -> Option<nat>): Option<Address> {
    if Literal(text).Some? then Literal(text)
    else if ':' in text && six(text).Some? then Some(V6(six(text).value))
    else None
  }

  lemma SmallRenders(o: nat)
    requires o < 256
    ensures LiteralOctet(Render(o, 10)) && Value(Render(o, 10), 10) == o
  {
    ValueOfRender(o, 10);
    assert Quotient(o, 10) < 26 && Quotient(Quotient(o, 10), 10) < 10;
    assert |Render(Quotient(o, 10), 10)| <= 2;
  }

  /** The plain text of an address: its octets in decimal, joined by dots. */
  ghost predicate PlainText(text: string, n: nat) {
    exists octets :: HasOctets(n, octets) && text == Join(Canonical(octets))
  }

  lemma SmallPack(octets: seq<nat>)
    requires |octets| == 4 && octets[0] < 256 && octets[1] < 256 && octets[2] < 256 && octets[3] < 256
    ensures HasOctets(Pack(octets), octets)
  {
  }

  lemma CanonicalReads(octets: seq<nat>)
    requires |octets| == 4 && octets[0] < 256 && octets[1] < 256 && octets[2] < 256 && octets[3] < 256
    ensures LiteralOctets(Canonical(octets)) && Octets(Canonical(octets)) == octets
  {
    SmallRenders(octets[0]);
    SmallRenders(octets[1]);
    SmallRenders(octets[2]);
    SmallRenders(octets[3]);
  }

  lemma ReadsCanonical(parts: seq<string>)
    requires LiteralOctets(parts)
    ensures Canonical(Octets(parts)) == parts
  {
    LiteralRenders(parts[0]);
    LiteralRenders(parts[1]);
    LiteralRenders(parts[2]);
    LiteralRenders(parts[3]);
  }

  lemma LiteralRenders(p: string)
    requires LiteralOctet(p)
    ensures Render(Value(p, 10), 10) == p
  {
    RenderOfValue(p);
  }

  lemma CanonicalSplits(octets: seq<nat>)
    requires |octets| == 4
    ensures Split(Join(Canonical(octets))) == Canonical(octets)
  {
    var parts := Canonical(octets);
    forall k | 0 <= k < 4 ensures '.' !in parts[k] {
      SpellingsArePlain(parts[k], octets[k]);
    }
    SplitOfJoin(parts);
  }

  lemma PlainTextIsRead(n: nat, octets: seq<nat>)
    requires HasOctets(n, octets)
    ensures Literal(Join(Canonical(octets))) == Some(V4(n))
  {
    CanonicalReads(octets);
    CanonicalSplits(octets);
    PackOctets(n, octets);
  }

  lemma ReadIsPlainText(text: string)
    requires Literal(text).Some?
    ensures PlainText(text, Literal(text).value.number)
  {
    var octets := Octets(Split(text));
    ReadsCanonical(Split(text));
    JoinOfSplit(text);
    SmallPack(octets);
  }

  /** A resolved address is read as an IPv4 address exactly from its plain text, and as an IPv6 one exactly
      from text with a colon that the reader of those knows. */
  lemma ResolvedExactlyIf(text: string, n: nat, six: string -> Option<nat>)
    ensures ResolvedAddress(text, six) == Some(V4(n)) <==> PlainText(text, n)
    ensures ResolvedAddress(text, six) == Some(V6(n)) <==> ':' in text && six(text) == Some(n)
  {
    if octets :| HasOctets(n, octets) && text == Join(Canonical(octets)) {
      PlainTextIsRead(n, octets);
    }
    if Literal(text).Some? {
      ReadIsPlainText(text);
      LiteralsHaveNoColon(text);
    }
  }

  lemma LiteralsHaveNoColon(text: string)
    requires Literal(text).Some?
    ensures ':' !in text
  {
    ReadIsPlainText(text);
    var octets :| HasOctets(Literal(text).value.number, octets) && text == Join(Canonical(octets));
    var parts := Canonical(octets);
    forall k | 0 <= k < 4 ensures parts[k] != "" && Plain(parts[k]) {
      SpellingsArePlain(parts[k], octets[k]);
    }
    JoinOfFour(parts);
    DottedShape(parts[0], parts[1], parts[2], parts[3]);
  }

  function CheckUrl(url: Url, allowHttp: bool, resolve: bool, w: World): Verdict {
    if url.text == "" then Refused(EmptyUrl)
    else if !(url.scheme == "https" || (allowHttp && url.scheme == "http")) then Refused(BadScheme)
    else if url.host == "" then Refused(NoHost)
    else if url.host in BLOCKED_NAMES then Refused(BlockedName)
    else
      match Parse(url.host, w.six)
      case Some(ip) => if w.blocked(ip) then Refused(BlockedAddress) else Accepted
      case None =>
        if !resolve then Accepted
        else
          match w.resolve(url.host)
          case None => Refused(Unresolved)
          case Some(addresses) =>
            if exists i | 0 <= i < |addresses| :: IsBlocked(addresses[i], w) then Refused(ResolvesToBlocked) else Accepted
  }

  predicate IsBlocked(text: string, w: World) {
    var ip := ResolvedAddress(text, w.six);
    ip.Some? && w.blocked(ip.value)
  }

  /** What an accepted URL must be: https or allowed http, its host not a listed name; if the host is an
      address, one that is not blocked; if it is a name that must be resolved, it resolves, and to no text of a
      blocked address. */
  lemma AcceptedExactlyIf(url: Url, allowHttp: bool, resolve: bool, w: World)
    ensures CheckUrl(url, allowHttp, resolve, w) == Accepted <==>
      && url.text != "" && url.host != ""
      && (url.scheme == "https" || (url.scheme == "http" && allowHttp))
      && url.host !in {"localhost", "ip6-localhost", "ip6-loopback", "metadata.google.internal", "metadata"}
      && (Parse(url.host, w.six).Some? ==> !w.blocked(Parse(url.host, w.six).value))
      && (Parse(url.host, w.six).None? && resolve ==>
            w.resolve(url.host).Some? && forall text | text in w.resolve(url.host).value :: Harmless(text, w))
  {
    if w.resolve(url.host).Some? {
      var addresses := w.resolve(url.host).value;
      forall i | 0 <= i < |addresses| ensures IsBlocked(addresses[i], w) <==> !Harmless(addresses[i], w) {
        HarmlessExactlyIf(addresses[i], w);
      }
    }
  }

  /** This is not the text of a blocked address. */
  ghost predicate Harmless(text: string, w: World) {
    && (forall n: nat | PlainText(text, n) :: !w.blocked(V4(n)))
    && (':' in text && w.six(text).Some? ==> !w.blocked(V6(w.six(text).value)))
  }

  lemma HarmlessExactlyIf(text: string, w: World)
    ensures IsBlocked(text, w) <==> !Harmless(text, w)
  {
    forall n: nat ensures ResolvedAddress(text, w.six) == Some(V4(n)) <==> PlainText(text, n) {
      ResolvedExactlyIf(text, n, w.six);
    }
    if ':' in text && w.six(text).Some? {
      ResolvedExactlyIf(text, w.six(text).value, w.six);
    }
  }

  /** For a URL whose host spells an IPv4 address in any way, the verdict depends on the scheme and the
      address alone: not on the spelling, and not on name resolution. */
  lemma SpellingDoesNotMatter(url: Url, number: nat, allowHttp: bool, resolve: bool, w: World)
    requires Denotes(Stripped(url.host), number) && url.text != ""
    ensures CheckUrl(url, allowHttp, resolve, w) ==
      if !(url.scheme == "https" || (allowHttp && url.scheme == "http")) then Refused(BadScheme)
      else if w.blocked(V4(number)) then Refused(BlockedAddress)
      else Accepted
  {
    ReadExactlyIfSpelled(url.host, number, w.six);
    SpelledHostsStartPlain(Stripped(url.host), number);
    if url.host in BLOCKED_NAMES {
      NamesAreUnpadded(url.host);
    }
  }

  lemma SpelledHostsStartPlain(h: string, number: nat)
    requires Denotes(h, number)
    ensures PlainStart(h)
  {
    if n: nat :| Spells(h, n) && number == n % WORD {
      SpellingsArePlain(h, n);
    } else {
      var octets :| AllSpell(Split(h), octets) && number == Pack(octets);
      SpelledDotted(h, octets, _ => None);
    }
  }

  lemma LetterEnds(name: string)
    requires name != "" && 'a' <= name[0] <= 'z' && 'a' <= name[|name| - 1] <= 'z'
    ensures Stripped(name) == name
  {
  }

  lemma NamesAreUnpadded(name: string)
    requires name in BLOCKED_NAMES
    ensures Stripped(name) == name && !PlainStart(name)
  {
    LetterEnds(name);
  }

  // ---- following redirects ----

  /** The answer to one fetch, or an exception from the client. */
  datatype Response = Reply(status: int, location: Option<string>) | Raised

  datatype Outcome = Got(response: Response) | NotAllowed(url: string, reason: Reason) | ClientRaised | TooManyRedirects

  predicate IsRedirect(r: Response) {
    r.Reply? && r.status in {301, 302, 303, 307, 308} && r.location.Some? && r.location.value != ""
  }

  function Hops(maxRedirects: int): nat {
    if maxRedirects + 1 > 0 then maxRedirects + 1 else 0
  }

  /** The world outside the loop: parsing a URL, resolving a location against the URL it came from, and
      what may answer differently on every hop, name resolution and the client. */
  datatype Net = Net(parse: string -> Url, join: (string, string) -> string, world: nat -> World, fetch: (nat, string) -> Response)

  /** The check of one hop: plain http is allowed, names are resolved. */
  function Checked(url: string, hop: nat, net: Net): Verdict {
    CheckUrl(net.parse(url), true, true, net.world(hop))
  }

  function Last(fetched: seq<string>, net: Net): Response
    requires fetched != []
  {
    net.fetch(|fetched| - 1, fetched[|fetched| - 1])
  }

  /** Where to go after these fetches: to `url` first, then wherever the last redirect points. */
  function Next(url: string, fetched: seq<string>, net: Net): Option<string> {
    if fetched == [] then Some(url)
    else if IsRedirect(Last(fetched, net)) then Some(net.join(fetched[|fetched| - 1], Last(fetched, net).location.value))
    else None
  }

  /** Each URL fetched is where the ones before it lead, and passed the check on its own hop. */
  predicate IsChain(url: string, fetched: seq<string>, net: Net) {
    fetched == [] ||
    var n := |fetched| - 1;
    IsChain(url, fetched[..n], net) && Next(url, fetched[..n], net) == Some(fetched[n]) && Checked(fetched[n], n, net) == Accepted
  }

  /** The first URL fetched is the one asked for, and each later one is where a redirect of the one before
      pointed. */
  lemma {:induction false} EachHopFollows(url: string, fetched: seq<string>, net: Net, k: nat)
    requires IsChain(url, fetched, net) && k < |fetched|
    ensures k == 0 ==> fetched[0] == url
    ensures k > 0 ==>
      var r := net.fetch(k - 1, fetched[k - 1]);
      && r.Reply? && r.status in {301, 302, 303, 307, 308}
      && r.location.Some? && r.location.value != ""
      && fetched[k] == net.join(fetched[k - 1], r.location.value)
  {
    var n := |fetched| - 1;
    if k == n {
    } else {
      EachHopFollows(url, fetched[..n], net, k);
    }
  }

  lemma ChainGrows(url: string, fetched: seq<string>, u: string, net: Net)
    requires IsChain(url, fetched, net) && Next(url, fetched, net) == Some(u) && Checked(u, |fetched|, net) == Accepted
    ensures IsChain(url, fetched + [u], net) && Last(fetched + [u], net) == net.fetch(|fetched|, u)
  {
    assert (fetched + [u])[..|fetched|] == fetched;
  }

  method GuardedGet(url: string, maxRedirects: int, net: Net) returns (outcome: Outcome, fetched: seq<string>)
    ensures IsChain(url, fetched, net) && |fetched| <= Hops(maxRedirects)
    ensures match outcome
      case Got(r) => fetched != [] && r == Last(fetched, net) && r.Reply? && !IsRedirect(r)
      case ClientRaised => fetched != [] && Last(fetched, net).Raised?
      case NotAllowed(u, reason) =>
        Next(url, fetched, net) == Some(u) && Checked(u, |fetched|, net) == Refused(reason) && |fetched| < Hops(maxRedirects)
      case TooManyRedirects => Next(url, fetched, net).Some? && |fetched| == Hops(maxRedirects)
    ensures |fetched| <= maxRedirects + 1 || (maxRedirects < 0 && fetched == [])
    ensures outcome.TooManyRedirects? ==> |fetched| == maxRedirects + 1 || maxRedirects < 0
    ensures outcome.Got? ==>
              outcome.response.status !in {301, 302, 303, 307, 308} || outcome.response.location in {None, Some("")}
  {
    var current := url;
    fetched := [];
    var hop := 0;
    while hop < maxRedirects + 1
      invariant hop == |fetched| <= Hops(maxRedirects)
      invariant IsChain(url, fetched, net) && Next(url, fetched, net) == Some(current)
    {
      var verdict := Checked(current, hop, net);
      if verdict.Refused? {
        return NotAllowed(current, verdict.reason), fetched;
      }
      var response := net.fetch(hop, current);
      ChainGrows(url, fetched, current, net);
      fetched := fetched + [current];
      if response.Raised? {
        return ClientRaised, fetched;
      }
      if response.status !in {301, 302, 303, 307, 308} {
        return Got(response), fetched;
      }
      if response.location.None? || response.location.value == "" {
        return Got(response), fetched;
      }
      current := net.join(current, response.location.value);
      hop := hop + 1;
    }
    outcome := TooManyRedirects;
  }

  lemma {:induction false} FetchedWasChecked(url: string, fetched: seq<string>, net: Net, n: nat)
    requires IsChain(url, fetched, net) && n < |fetched|
    ensures CheckUrl(net.parse(fetched[n]), true, true, net.world(n)) == Accepted
  {
    var last := |fetched| - 1;
    if n == last {
    } else {
      FetchedWasChecked(url, fetched[..last], net, n);
    }
  }

  /** No URL is ever fetched, first or after a redirect, whose host is a listed name, or a name that did not
      resolve on its hop or resolved to a blocked address. */
  lemma BlockedNamesAreNotFetched(url: string, fetched: seq<string>, net: Net, n: nat)
    requires IsChain(url, fetched, net) && n < |fetched|
    ensures var u, w := net.parse(fetched[n]), net.world(n);
      && u.scheme in {"http", "https"}
      && u.host !in {"", "localhost", "ip6-localhost", "ip6-loopback", "metadata.google.internal", "metadata"}
      && (Parse(u.host, w.six).None? ==> w.resolve(u.host).Some? && forall text | text in w.resolve(u.host).value :: Harmless(text, w))
  {
    FetchedWasChecked(url, fetched, net, n);
    AcceptedExactlyIf(net.parse(fetched[n]), true, true, net.world(n));
  }

  /** No URL whose host spells a blocked address, in whatever way, is ever fetched: not first, and not
      after a redirect. */
  lemma BlockedSpellingsAreNotFetched(url: string, fetched: seq<string>, net: Net, n: nat, number: nat)
    requires IsChain(url, fetched, net) && n < |fetched|
    requires net.parse(fetched[n]).text != "" && Denotes(Stripped(net.parse(fetched[n]).host), number)
    ensures !net.world(n).blocked(V4(number))
  {
    FetchedWasChecked(url, fetched, net, n);
    SpellingDoesNotMatter(net.parse(fetched[n]), number, true, true, net.world(n));
  }
}
