/** Hierarchical derivation paths: the canonical printer and the lenient parser. */
module Derivation {
  import opened Wrappers

  const HARDENED: nat := 0x8000_0000
  const MAX_UINT32: nat := 0xFFFF_FFFF

  /** A path is a list of uint32 components; hardened ones have the top bit set. */
  type Component = x: nat | x <= MAX_UINT32
  type Path = seq<Component>

  const DEFAULT_ROOT: Path := [HARDENED + 44, HARDENED + 60, HARDENED + 0, 0]

  datatype Error = AmbiguousPath | EmptyPath | InvalidComponent | OutOfRange

  // ---------------------------------------------------------------- printing

  function DigitChar(d: nat): char
    requires d < 16
  {
    if d < 10 then '0' + d as char else 'a' + (d - 10) as char
  }

  predicate IsBase(base: nat) {
    base == 2 || base == 8 || base == 10 || base == 16
  }

  function Numeral(n: nat, base: nat): string
    requires IsBase(base)
  {
    if n < base then [DigitChar(n)] else Numeral(n / base, base) + [DigitChar(n % base)]
  }

  function Decimal(n: nat): string {
    Numeral(n, 10)
  }

  function PrintComponent(c: Component): string {
    if c >= HARDENED then Decimal(c - HARDENED) + "'" else Decimal(c)
  }

  function Print(path: Path): string {
    if path == [] then "m" else Print(path[..|path| - 1]) + "/" + PrintComponent(path[|path| - 1])
  }

  // ----------------------------------------------------------------- parsing

  /** The pieces between slashes; at least one. */
  function Split(s: string): (r: seq<string>)
    ensures |r| >= 1
  {
    if s == [] then [[]]
    else
      var r := Split(s[1..]);
      if s[0] == '/' then [[]] + r else [[s[0]] + r[0]] + r[1..]
  }

  /** White space as Unicode defines it. */
  predicate IsSpace(c: char) {
    var n := c as int;
    || 9 <= n <= 13 || n == 32 || n == 0x85 || n == 0xA0 || n == 0x1680
    || 0x2000 <= n <= 0x200A || n == 0x2028 || n == 0x2029 || n == 0x202F || n == 0x205F || n == 0x3000
  }

  function TrimLeft(s: string): string {
    if s != [] && IsSpace(s[0]) then TrimLeft(s[1..]) else s
  }

  function TrimRight(s: string): string {
    if s != [] && IsSpace(s[|s| - 1]) then TrimRight(s[..|s| - 1]) else s
  }

  function TrimSpace(s: string): string {
    TrimRight(TrimLeft(s))
  }

  function DigitValue(c: char): Option<nat> {
    if '0' <= c <= '9' then Some(c as int - '0' as int)
    else if 'a' <= c <= 'z' then Some(c as int - 'a' as int + 10)
    else if 'A' <= c <= 'Z' then Some(c as int - 'A' as int + 10)
    else None
  }

  /** Digits with separators: an underscore must follow a digit or the base prefix and
      must not come last. `seen` says whether there was a digit. */
  function ScanDigits(s: string, base: nat, afterDigit: bool, seen: bool, acc: nat): Option<nat> {
    if s == [] then (if seen && afterDigit then Some(acc) else None)
    else if s[0] == '_' then (if afterDigit then ScanDigits(s[1..], base, false, seen, acc) else None)
    else
      match DigitValue(s[0])
      case None => None
      case Some(d) => if d < base then ScanDigits(s[1..], base, true, true, acc * base + d) else None
  }

  /** An unsigned integer whose base is given by its prefix: 0b, 0o, 0x, a leading 0
      for octal, decimal otherwise. */
  function ScanNat(s: string): Option<nat> {
    if s == "0" then Some(0)
    else if |s| >= 2 && s[0] == '0' then
      if s[1] == 'b' || s[1] == 'B' then ScanDigits(s[2..], 2, true, false, 0)
      else if s[1] == 'o' || s[1] == 'O' then ScanDigits(s[2..], 8, true, false, 0)
      else if s[1] == 'x' || s[1] == 'X' then ScanDigits(s[2..], 16, true, false, 0)
      else ScanDigits(s[1..], 8, true, false, 0)
    else ScanDigits(s, 10, false, false, 0)
  }

  function ScanInt(s: string): Option<int> {
    if s != [] && (s[0] == '-' || s[0] == '+') then
      match ScanNat(s[1..])
      case None => None
      case Some(n) => Some(if s[0] == '-' then 0 - (n as int) else n as int)
    else
      match ScanNat(s)
      case None => None
      case Some(n) => Some(n)
  }

  function ParseComponent(text: string): Result<Component, Error> {
    var t := TrimSpace(text);
    var hardened := t != [] && t[|t| - 1] == '\'';
    var value := if hardened then HARDENED else 0;
    var digits := if hardened then TrimSpace(t[..|t| - 1]) else t;
    match ScanInt(digits)
    case None => Err(InvalidComponent)
    case Some(n) => if n < 0 || n > MAX_UINT32 - value then Err(OutOfRange) else Ok(value + n)
  }

  function ParseAll(texts: seq<string>): (r: Result<Path, Error>)
    ensures r.Ok? ==> |r.value| == |texts|
  {
    if texts == [] then Ok([])
    else
      match ParseAll(texts[..|texts| - 1])
      case Err(e) => Err(e)
      case Ok(path) =>
        match ParseComponent(texts[|texts| - 1])
        case Err(e) => Err(e)
        case Ok(c) => Ok(path + [c])
  }

  /** A path with an `m` prefix is absolute, one without is relative to the default root. */
  function Parse(s: string): Result<Path, Error> {
    var components := Split(s);
    var first := TrimSpace(components[0]);
    if first == "" then Err(AmbiguousPath)
    else
      var absolute := first == "m";
      var rest := if absolute then components[1..] else components;
      if rest == [] then Err(EmptyPath)
      else
        match ParseAll(rest)
        case Err(e) => Err(e)
        case Ok(path) => Ok((if absolute then [] else DEFAULT_ROOT) + path)
  }

  /** The parser: append component by component until one is refused. */
  method ParseDerivationPath(s: string) returns (r: Result<Path, Error>)
    ensures r == Parse(s)
  {
    hide Split, TrimSpace, ParseComponent;
    var components := Split(s);
    var first := TrimSpace(components[0]);
    if first == "" {
      return Err(AmbiguousPath);
    }
    var result: Path := DEFAULT_ROOT;
    if first == "m" {
      components, result := components[1..], [];
    }
    if |components| == 0 {
      return Err(EmptyPath);
    }
    ghost var root := result;
    for i := 0 to |components|
      invariant ParseAll(components[..i]).Ok? && result == root + ParseAll(components[..i]).value
    {
      assert components[..i + 1][..i] == components[..i];
      var c := ParseComponent(components[i]);
      if c.Err? {
        RefusedPrefix(components, i + 1);
        return Err(c.error);
      }
      result := result + [c.value];
    }
    assert components[..|components|] == components;
    return Ok(result);
  }

  lemma {:induction false} RefusedPrefix(texts: seq<string>, i: nat)
    requires i <= |texts| && ParseAll(texts[..i]).Err?
    ensures ParseAll(texts) == ParseAll(texts[..i])
    decreases |texts| - i
  {
    if i == |texts| {
      assert texts[..i] == texts;
    } else {
      assert texts[..i + 1][..i] == texts[..i];
      RefusedPrefix(texts, i + 1);
    }
  }

  /** The printer: append `/` and each component in turn. */
  method PathString(path: Path) returns (s: string)
    ensures s == Print(path)
  {
    s := "m";
    for i := 0 to |path|
      invariant s == Print(path[..i])
    {
      assert path[..i + 1][..i] == path[..i];
      s := s + "/" + PrintComponent(path[i]);
    }
    assert path[..|path|] == path;
  }

  // ------------------------------------------------------- numeral round trips

  predicate Digits(s: string, base: nat) {
    forall i :: 0 <= i < |s| ==> DigitValue(s[i]).Some? && DigitValue(s[i]).value < base
  }

  /** Appending the digits of `s` to a number. */
  function Append(acc: nat, s: string, base: nat): nat
    requires Digits(s, base)
  {
    if s == [] then acc
    else Append(acc, s[..|s| - 1], base) * base + DigitValue(s[|s| - 1]).value
  }

  lemma {:induction false} AppendFirst(acc: nat, s: string, base: nat)
    requires s != [] && Digits(s, base)
    ensures Append(acc, s, base) == Append(acc * base + DigitValue(s[0]).value, s[1..], base)
    decreases |s|
  {
    hide DigitValue;
    if |s| == 1 {
      assert s[..0] == [] && s[1..] == [];
    } else {
      AppendFirst(acc, s[..|s| - 1], base);
      assert s[..|s| - 1][1..] == s[1..][..|s| - 2];
    }
  }

  lemma {:induction false} ScanIsAppend(s: string, base: nat, afterDigit: bool, seen: bool, acc: nat)
    requires Digits(s, base) && (s != [] || (seen && afterDigit))
    ensures ScanDigits(s, base, afterDigit, seen, acc) == Some(Append(acc, s, base))
    decreases |s|
  {
    hide DigitValue, Append, ScanDigits;
    if s == [] {
      AppendNothing(acc, base);
      ScanEnd(base, acc);
    } else {
      NotSeparator(s[0]);
      AppendFirst(acc, s, base);
      ScanIsAppend(s[1..], base, true, true, acc * base + DigitValue(s[0]).value);
      ScanStep(s, base, afterDigit, seen, acc);
    }
  }

  lemma ScanStep(s: string, base: nat, afterDigit: bool, seen: bool, acc: nat)
    requires s != [] && s[0] != '_' && DigitValue(s[0]).Some? && DigitValue(s[0]).value < base
    ensures ScanDigits(s, base, afterDigit, seen, acc) ==
              ScanDigits(s[1..], base, true, true, acc * base + DigitValue(s[0]).value)
  {
    hide DigitValue;
  }

  lemma ScanEnd(base: nat, acc: nat)
    ensures ScanDigits([], base, true, true, acc) == Some(acc)
  {
  }

  lemma NotSeparator(c: char)
    requires DigitValue(c).Some?
    ensures c != '_'
  {
  }

  lemma AppendNothing(acc: nat, base: nat)
    ensures Append(acc, [], base) == acc
  {
  }

  lemma DigitRoundTrip(d: nat)
    requires d < 16
    ensures DigitValue(DigitChar(d)) == Some(d) && (DigitChar(d) == '0' <==> d == 0)
    ensures d < 10 ==> '0' <= DigitChar(d) <= '9'
  {
  }

  lemma DivideBack(n: nat, base: nat)
    requires IsBase(base)
    ensures n / base * base + n % base == n && n % base < base
    ensures n >= base ==> 0 < n / base < n
  {
  }

  lemma {:induction false} NumeralDigits(n: nat, base: nat)
    requires IsBase(base)
    ensures Numeral(n, base) != [] && Digits(Numeral(n, base), base)
    ensures n > 0 ==> Numeral(n, base)[0] != '0'
    ensures Append(0, Numeral(n, base), base) == n
  {
    hide DigitValue, DigitChar;
    if n < base {
      DigitRoundTrip(n);
      assert Numeral(n, base)[..0] == [];
    } else {
      DivideBack(n, base);
      NumeralDigits(n / base, base);
      DigitRoundTrip(n % base);
      AppendLast(Numeral(n / base, base), base, n % base);
    }
  }

  lemma AppendLast(s: string, base: nat, d: nat)
    requires Digits(s, base) && d < base <= 16
    ensures Digits(s + [DigitChar(d)], base)
    ensures Append(0, s + [DigitChar(d)], base) == Append(0, s, base) * base + d
  {
    hide DigitValue, DigitChar;
    DigitRoundTrip(d);
    var t := s + [DigitChar(d)];
    assert t[..|t| - 1] == s;
  }

  lemma {:induction false} DecimalChars(n: nat)
    ensures Decimal(n) != []
    ensures forall i :: 0 <= i < |Decimal(n)| ==> '0' <= Decimal(n)[i] <= '9'
  {
    if n < 10 {
    } else {
      DecimalChars(n / 10);
    }
  }

  lemma ScanDecimal(n: nat)
    ensures ScanInt(Decimal(n)) == Some(n)
  {
    hide DigitValue;
    NumeralDigits(n, 10);
    DecimalChars(n);
    var s := Decimal(n);
    if n > 0 {
      ScanIsAppend(s, 10, false, false, 0);
    }
  }

  /** The prefixes: a numeral in base 2, 8 or 16 behind its prefix is read in that base,
      and a leading zero alone means octal. */
  lemma ScanPrefixed(n: nat)
    ensures ScanInt("0b" + Numeral(n, 2)) == ScanInt("0B" + Numeral(n, 2)) == Some(n)
    ensures ScanInt("0o" + Numeral(n, 8)) == ScanInt("0O" + Numeral(n, 8)) == Some(n)
    ensures ScanInt("0x" + Numeral(n, 16)) == ScanInt("0X" + Numeral(n, 16)) == Some(n)
    ensures ScanInt("0" + Numeral(n, 8)) == Some(n)
  {
    hide DigitValue;
    ScanBehind("0b", n, 2);
    ScanBehind("0B", n, 2);
    ScanBehind("0o", n, 8);
    ScanBehind("0O", n, 8);
    ScanBehind("0x", n, 16);
    ScanBehind("0X", n, 16);
    ScanOctal(n);
  }

  lemma ScanBehind(prefix: string, n: nat, base: nat)
    requires IsBase(base) && |prefix| == 2 && prefix[0] == '0'
    requires base == match prefix[1] case 'b' => 2 case 'B' => 2 case 'o' => 8 case 'O' => 8 case 'x' => 16 case 'X' => 16
                                      case _ => 10
    requires base != 10
    ensures ScanInt(prefix + Numeral(n, base)) == Some(n)
  {
    hide DigitValue, Numeral, Append, ScanDigits;
    var s, d := prefix + Numeral(n, base), Numeral(n, base);
    NumeralDigits(n, base);
    ScanIsAppend(d, base, true, false, 0);
    assert s[2..] == d && s[0] == '0' && s[1] == prefix[1];
  }

  lemma ScanOctal(n: nat)
    ensures ScanInt("0" + Numeral(n, 8)) == Some(n)
  {
    hide Numeral, Append, ScanDigits;
    var s, d := "0" + Numeral(n, 8), Numeral(n, 8);
    NumeralDigits(n, 8);
    ScanIsAppend(d, 8, true, false, 0);
    assert s[1..] == d && s[1] == d[0];
    assert DigitValue(d[0]).value < 8;
  }

  /** A sign goes in front of any numeral, once. */
  lemma ScanSigned(s: string)
    requires s != [] && s[0] != '-' && s[0] != '+'
    ensures ScanInt(s).None? ==> ScanInt("-" + s).None? && ScanInt("+" + s).None?
    ensures ScanInt(s).Some? ==> ScanInt("-" + s) == Some(-ScanInt(s).value) && ScanInt("+" + s) == ScanInt(s)
  {
    hide ScanNat;
    assert ("-" + s)[1..] == s && ("+" + s)[1..] == s;
  }

  /** The root the relative paths hang under. */
  lemma DefaultRoot()
    ensures Print(DEFAULT_ROOT) == "m/44'/60'/0'/0"
  {
    var r := DEFAULT_ROOT;
    assert r[..3][..2] == r[..2] && r[..2][..1] == r[..1] && r[..1][..0] == [];
    assert Numeral(44, 10) == "44" && Numeral(60, 10) == "60" && Numeral(0, 10) == "0" by {
      assert Numeral(4, 10) == "4" && Numeral(6, 10) == "6";
    }
    assert Print(r[..1]) == "m/44'";
    assert Print(r[..2]) == "m/44'/60'";
    assert Print(r[..3]) == "m/44'/60'/0'";
  }

  // ---------------------------------------------------------- path round trip

  lemma TrimNothing(s: string)
    requires s != [] ==> !IsSpace(s[0]) && !IsSpace(s[|s| - 1])
    ensures TrimSpace(s) == s
  {
  }

  lemma ComponentRoundTrip(c: Component)
    ensures ParseComponent(PrintComponent(c)) == Ok(c)
  {
    hide ScanInt;
    var n := if c >= HARDENED then c - HARDENED else c;
    var d := Decimal(n);
    DecimalChars(n);
    ScanDecimal(n);
    TrimNothing(d);
    var text := PrintComponent(c);
    TrimNothing(text);
    if c >= HARDENED {
      assert text[..|text| - 1] == d;
    }
  }

  lemma {:induction false} SplitLast(a: string, b: string)
    requires '/' !in b
    ensures Split(a + "/" + b) == Split(a) + [b]
  {
    if a == [] {
      SplitNone(b);
      assert (a + "/" + b)[1..] == b;
    } else {
      SplitLast(a[1..], b);
      assert (a + "/" + b)[1..] == a[1..] + "/" + b;
    }
  }

  lemma {:induction false} SplitNone(b: string)
    requires '/' !in b
    ensures Split(b) == [b]
  {
    if b == [] {
    } else {
      SplitNone(b[1..]);
      assert [b[0]] + b[1..] == b;
    }
  }

  function PrintAll(path: Path): (texts: seq<string>)
    ensures |texts| == |path|
  {
    seq(|path|, i requires 0 <= i < |path| => PrintComponent(path[i]))
  }

  lemma PrintedHasNoSlash(c: Component)
    ensures '/' !in PrintComponent(c)
  {
    DecimalChars(if c >= HARDENED then c - HARDENED else c);
  }

  lemma {:induction false} SplitPrint(path: Path)
    ensures Split(Print(path)) == ["m"] + PrintAll(path)
  {
    hide PrintComponent, Split;
    if path == [] {
      SplitNone("m");
    } else {
      var rest, c := path[..|path| - 1], path[|path| - 1];
      SplitPrint(rest);
      PrintedHasNoSlash(c);
      SplitLast(Print(rest), PrintComponent(c));
      assert PrintAll(path) == PrintAll(rest) + [PrintComponent(c)];
    }
  }

  lemma {:induction false} ParseAllPrinted(path: Path)
    ensures ParseAll(PrintAll(path)) == Ok(path)
  {
    hide ParseComponent, PrintComponent;
    if path == [] {
    } else {
      var rest, c := path[..|path| - 1], path[|path| - 1];
      ParseAllPrinted(rest);
      ComponentRoundTrip(c);
      assert PrintAll(path)[..|path| - 1] == PrintAll(rest);
      assert rest + [c] == path;
    }
  }

  /** Parsing the printed form of a path gives the path back; only the empty path,
      printed as a bare `m`, is refused. */
  lemma RoundTrip(path: Path)
    ensures Parse(Print(path)) == if path == [] then Err(EmptyPath) else Ok(path)
  {
    hide Print, Split, ParseAll, PrintAll;
    SplitPrint(path);
    ParseAllPrinted(path);
    TrimNothing("m");
    var components := ["m"] + PrintAll(path);
    assert components[1..] == PrintAll(path);
    assert |PrintAll(path)| == |path|;
    assert [] + path == path;
  }

  /** Whatever spelling was accepted, printing the result and parsing it again is
      stable. */
  lemma ParsedIsCanonical(s: string)
    requires Parse(s).Ok?
    ensures Parse(Print(Parse(s).value)) == Parse(s)
  {
    RoundTrip(Parse(s).value);
  }

  /** A relative path is the same path under the default root. */
  lemma RelativePath(s: string)
    requires TrimSpace(Split(s)[0]) != "" && TrimSpace(Split(s)[0]) != "m"
    ensures Parse(s).Ok? <==> Parse("m/" + s).Ok?
    ensures Parse(s).Ok? ==> Parse(s).value == DEFAULT_ROOT + Parse("m/" + s).value
  {
    hide ParseAll;
    SplitFirst(s);
    TrimNothing("m");
    assert (["m"] + Split(s))[1..] == Split(s);
  }

  lemma SplitFirst(s: string)
    ensures Split("m/" + s) == ["m"] + Split(s)
  {
    assert ("m/" + s)[1..] == "/" + s;
    assert ("/" + s)[1..] == s;
    assert Split("/" + s) == [[]] + Split(s);
    assert ['m'] + [] == "m";
  }

  /** The ranges: a plain component goes up to 2^32 - 1, a hardened one up to 2^31 - 1, and
      nothing goes below zero. */
  lemma ComponentRange(n: nat)
    ensures ParseComponent(Decimal(n)) == if n <= 0xFFFF_FFFF then Ok(n) else Err(OutOfRange)
    ensures ParseComponent(Decimal(n) + "'") == if n <= 0x7FFF_FFFF then Ok(0x8000_0000 + n) else Err(OutOfRange)
    ensures n > 0 ==> ParseComponent("-" + Decimal(n)) == Err(OutOfRange)
  {
    hide ScanInt, Numeral, Append;
    var d := Decimal(n);
    DecimalChars(n);
    ScanDecimal(n);
    ScanSigned(d);
    TrimNothing(d);
    TrimNothing(d + "'");
    TrimNothing("-" + d);
    assert (d + "'")[..|d|] == d;
    assert ("-" + d)[|d|] == d[|d| - 1];
  }

  /** White space around a component is ignored. */
  lemma SpaceIgnored(before: string, text: string, behind: string)
    requires forall i :: 0 <= i < |before| ==> IsSpace(before[i])
    requires forall i :: 0 <= i < |behind| ==> IsSpace(behind[i])
    requires text != [] ==> !IsSpace(text[0]) && !IsSpace(text[|text| - 1])
    ensures ParseComponent(before + text + behind) == ParseComponent(text)
  {
    hide ScanInt;
    TrimNothing(text);
    if text == [] {
      assert before + text + behind == before + behind;
      TrimAllSpace(before + behind);
    } else {
      TrimLeftSpace(before, text + behind);
      assert before + text + behind == before + (text + behind);
      TrimRightSpace(text, behind);
    }
  }

  lemma {:induction false} TrimAllSpace(s: string)
    requires forall i :: 0 <= i < |s| ==> IsSpace(s[i])
    ensures TrimLeft(s) == []
  {
    if s == [] {
    } else {
      TrimAllSpace(s[1..]);
    }
  }

  lemma {:induction false} TrimLeftSpace(before: string, s: string)
    requires forall i :: 0 <= i < |before| ==> IsSpace(before[i])
    requires s != [] && !IsSpace(s[0])
    ensures TrimLeft(before + s) == s
  {
    if before == [] {
      assert before + s == s;
    } else {
      TrimLeftSpace(before[1..], s);
      assert (before + s)[1..] == before[1..] + s;
    }
  }

  lemma {:induction false} TrimRightSpace(s: string, behind: string)
    requires forall i :: 0 <= i < |behind| ==> IsSpace(behind[i])
    requires s != [] && !IsSpace(s[|s| - 1])
    ensures TrimRight(s + behind) == s
    decreases |behind|
  {
    if behind == [] {
      assert s + behind == s;
    } else {
      TrimRightSpace(s, behind[..|behind| - 1]);
      assert (s + behind)[..|s + behind| - 1] == s + behind[..|behind| - 1];
    }
  }

  /** What is refused before any component is read: nothing, or white space, in front of
      the first slash, and a bare `m`. */
  lemma PathRefused(s: string)
    ensures Parse(s) == Err(AmbiguousPath) <==> TrimSpace(Split(s)[0]) == ""
    ensures TrimSpace(Split(s)[0]) == "m" && |Split(s)| == 1 ==> Parse(s) == Err(EmptyPath)
  {
    hide Split, TrimSpace;
    if TrimSpace(Split(s)[0]) != "" {
      ComponentsNotAmbiguous(Split(s));
      ComponentsNotAmbiguous(Split(s)[1..]);
    }
  }

  lemma {:induction false} ComponentsNotAmbiguous(texts: seq<string>)
    ensures ParseAll(texts) != Err(AmbiguousPath)
  {
    hide TrimSpace, ScanInt;
    if texts == [] {
    } else {
      ComponentsNotAmbiguous(texts[..|texts| - 1]);
    }
  }
}
