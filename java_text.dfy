/**
 * The parts of java.lang.String the core relies on, written out so that the
 * line rules of the loaders and the report format can be reasoned about:
 * `trim`, `split` with a one-character separator, `split` at runs of white space after a
 * trim, `String.join` and the `%0<width>d` conversion of `String.format`.
 *
 * A Java `char` is modelled by a Dafny `char`; only comparisons with the
 * space character and equality are used, which agree on both.
 */
module JavaText {
  import opened Wrappers

  /** n copies of x. */
  function Repeat<T>(x: T, n: nat): (r: seq<T>)
    ensures |r| == n && forall i :: 0 <= i < n ==> r[i] == x
  {
    if n == 0 then [] else Repeat(x, n - 1) + [x]
  }

  // ---------------------------------------------------------------- trim

  /** The characters `String.trim` removes: every code unit up to and including the space. */
  predicate IsBlank(c: char)
  {
    c <= ' '
  }

  /** How many blanks open s. */
  function LeadingBlanks(s: string): (n: nat)
    ensures n <= |s|
    ensures forall k :: 0 <= k < n ==> IsBlank(s[k])
    ensures n < |s| ==> !IsBlank(s[n])
  {
    if s == [] || !IsBlank(s[0]) then 0 else 1 + LeadingBlanks(s[1..])
  }

  /** How many blanks close s. */
  function TrailingBlanks(s: string): (n: nat)
    ensures n <= |s|
    ensures forall k :: |s| - n <= k < |s| ==> IsBlank(s[k])
    ensures n < |s| ==> !IsBlank(s[|s| - n - 1])
  {
    if s == [] || !IsBlank(s[|s| - 1]) then 0 else 1 + TrailingBlanks(s[..|s| - 1])
  }

  /** `String.trim`: s without its leading and trailing blanks. */
  function Trim(s: string): (r: string)
    ensures |r| <= |s|
    ensures r == [] || (!IsBlank(r[0]) && !IsBlank(r[|r| - 1]))
  {
    var t := s[LeadingBlanks(s)..];
    t[..|t| - TrailingBlanks(t)]
  }

  /** The trim is a middle part of s, and everything cut off before and after it is blank. */
  lemma TrimCutsBlanks(s: string)
    ensures exists i :: && 0 <= i <= |s| - |Trim(s)|
                        && Trim(s) == s[i..][..|Trim(s)|]
                        && (forall c :: c in s[..i] ==> IsBlank(c))
                        && (forall c :: c in s[i..][|Trim(s)|..] ==> IsBlank(c))
  {
    var st := LeadingBlanks(s);
    var t := s[st..];
    var r := Trim(s);
    assert r == s[st..][..|r|];
    assert forall c :: c in s[..st] ==> IsBlank(c);
    assert forall c :: c in s[st..][|r|..] ==> IsBlank(c);
  }

  /** A string that neither starts nor ends with a blank is its own trim. */
  lemma TrimOfTrimmed(s: string)
    requires s == [] || (!IsBlank(s[0]) && !IsBlank(s[|s| - 1]))
    ensures Trim(s) == s
  {
    var st := LeadingBlanks(s);
    assert st == 0;
    assert s[st..] == s;
  }

  /** Trimming twice is trimming once. */
  lemma TrimIdempotent(s: string)
    ensures Trim(Trim(s)) == Trim(s)
  {
    TrimOfTrimmed(Trim(s));
  }

  // ------------------------------------------------ split on one character

  /**
   * All fields of s between occurrences of sep, empty ones included; a
   * string without sep is a single field.
   */
  function Fields(s: string, sep: char): (r: seq<string>)
    ensures |r| >= 1
    ensures forall i :: 0 <= i < |r| ==> sep !in r[i]
  {
    if s == [] then [[]]
    else
      var rest := Fields(s[1..], sep);
      if s[0] == sep then [[]] + rest
      else [[s[0]] + rest[0]] + rest[1..]
  }

  /** The parts, with one sep between each neighbouring pair (`String.join` for a one-character delimiter). */
  function Join(parts: seq<string>, sep: char): string
  {
    if |parts| == 0 then []
    else if |parts| == 1 then parts[0]
    else parts[0] + [sep] + Join(parts[1..], sep)
  }

  /** Putting the separators back between the fields gives the original string. */
  lemma {:induction false} JoinFields(s: string, sep: char)
    ensures Join(Fields(s, sep), sep) == s
  {
    if s != [] {
      var rest := Fields(s[1..], sep);
      JoinFields(s[1..], sep);
      if s[0] != sep {
        var r := Fields(s, sep);
        if |rest| == 1 {
          assert r == [[s[0]] + rest[0]];
        } else {
          assert r[1..] == rest[1..];
          assert Join(rest, sep) == rest[0] + [sep] + Join(rest[1..], sep);
        }
      }
    }
  }

  /** A field without sep followed by the rest of a string merges into the rest's first field. */
  lemma {:induction false} FieldsOfPrefix(p: string, t: string, sep: char)
    requires sep !in p
    ensures Fields(p + t, sep) == [p + Fields(t, sep)[0]] + Fields(t, sep)[1..]
  {
    var f := Fields(t, sep);
    if p == [] {
      assert p + t == t;
      assert p + f[0] == f[0];
      assert f == [f[0]] + f[1..];
    } else {
      FieldsOfPrefix(p[1..], t, sep);
      assert (p + t)[1..] == p[1..] + t;
      var rest := Fields(p[1..] + t, sep);
      assert rest[0] == p[1..] + f[0] && rest[1..] == f[1..];
      assert [p[0]] + (p[1..] + f[0]) == p + f[0];
    }
  }

  /** Splitting a join of sep-free parts gives the parts back. */
  lemma {:induction false} FieldsJoin(parts: seq<string>, sep: char)
    requires |parts| >= 1
    requires forall i :: 0 <= i < |parts| ==> sep !in parts[i]
    ensures Fields(Join(parts, sep), sep) == parts
  {
    if |parts| == 1 {
      FieldsOfPrefix(parts[0], [], sep);
      assert parts[0] + [] == parts[0];
    } else {
      FieldsJoin(parts[1..], sep);
      var t := [sep] + Join(parts[1..], sep);
      assert Join(parts, sep) == parts[0] + t;
      assert t[1..] == Join(parts[1..], sep);
      assert Fields(t, sep) == [[]] + parts[1..];
      FieldsOfPrefix(parts[0], t, sep);
      assert parts[0] + [] == parts[0];
      assert parts == [parts[0]] + parts[1..];
    }
  }

  /** The longest prefix of parts that does not end with an empty string. */
  function StripTrailingEmpty(parts: seq<string>): (r: seq<string>)
    ensures |r| <= |parts| && r == parts[..|r|]
    ensures r == [] || r[|r| - 1] != []
    ensures forall i :: |r| <= i < |parts| ==> parts[i] == []
  {
    if parts != [] && parts[|parts| - 1] == [] then StripTrailingEmpty(parts[..|parts| - 1]) else parts
  }

  /**
   * `s.split(sep)` for a separator that is one ordinary character: without
   * a match the whole string, otherwise the fields with the trailing empty
   * ones removed (leading and inner empty fields stay).
   */
  function JavaSplit(s: string, sep: char): (r: seq<string>)
    ensures forall i :: 0 <= i < |r| ==> sep !in r[i] || sep !in s
    ensures sep in s ==> r == [] || r[|r| - 1] != []
  {
    if sep !in s then [s] else StripTrailingEmpty(Fields(s, sep))
  }

  /** Joining [k, v] and m empty strings spells k, sep, v and then m more separators. */
  lemma {:induction false} JoinWithEmpties(k: string, v: string, m: nat, sep: char)
    ensures Join([k, v] + Repeat([], m), sep) == k + [sep] + v + Repeat(sep, m)
  {
    if m > 0 {
      JoinWithEmpties(k, v, m - 1, sep);
      JoinAppend([k, v] + Repeat([], m - 1), [], sep);
      assert [k, v] + Repeat([], m - 1) + [[]] == [k, v] + Repeat([], m);
      assert k + [sep] + v + Repeat(sep, m - 1) + [sep] + [] == k + [sep] + v + Repeat(sep, m);
    }
  }

  /** Joining one more part adds a separator and that part. */
  lemma {:induction false} JoinAppend(parts: seq<string>, p: string, sep: char)
    requires |parts| >= 1
    ensures Join(parts + [p], sep) == Join(parts, sep) + [sep] + p
  {
    if |parts| > 1 {
      JoinAppend(parts[1..], p, sep);
      assert (parts + [p])[1..] == parts[1..] + [p];
    }
  }

  /**
   * A line splits into exactly the two fields k and v when it is k, the
   * separator, a non-empty v and any number of trailing separators.
   */
  lemma SplitPairOf(k: string, v: string, m: nat, sep: char)
    requires sep !in k && sep !in v && v != []
    ensures JavaSplit(k + [sep] + v + Repeat(sep, m), sep) == [k, v]
  {
    var s := k + [sep] + v + Repeat(sep, m);
    var parts := [k, v] + Repeat([], m);
    JoinWithEmpties(k, v, m, sep);
    FieldsJoin(parts, sep);
    assert s[|k|] == sep;
    var r := StripTrailingEmpty(parts);
    assert parts[1] == v;
    assert |r| >= 2;
    assert r[|r| - 1] == parts[|r| - 1];
  }

  /** And only such a line splits into exactly two fields. */
  lemma SplitPairShape(s: string, sep: char)
    requires |JavaSplit(s, sep)| == 2
    ensures var p := JavaSplit(s, sep);
            && sep !in p[0] && sep !in p[1] && p[1] != []
            && exists m: nat :: s == p[0] + [sep] + p[1] + Repeat(sep, m)
  {
    var f := Fields(s, sep);
    var p := StripTrailingEmpty(f);
    assert p == JavaSplit(s, sep);
    var m := |f| - 2;
    assert f == [p[0], p[1]] + Repeat([], m);
    JoinFields(s, sep);
    JoinWithEmpties(p[0], p[1], m, sep);
  }

  // ------------------------------------------------ split on white space

  /** The characters the regular expression `\s` matches. */
  predicate IsSpace(c: char)
  {
    c == ' ' || c == '\t' || c == '\n' || c == '\U{B}' || c == '\U{C}' || c == '\r'
  }

  /** s without its leading run of white space. */
  function SkipSpace(s: string): (r: string)
    ensures |r| <= |s| && r == s[|s| - |r|..]
    ensures r == [] || !IsSpace(r[0])
    ensures forall i :: 0 <= i < |s| - |r| ==> IsSpace(s[i])
  {
    if s != [] && IsSpace(s[0]) then SkipSpace(s[1..]) else s
  }

  /** The fields of s between maximal runs of white space, empty ones included. */
  function SpaceFields(s: string): (r: seq<string>)
    ensures |r| >= 1
    ensures forall i :: 0 <= i < |r| ==> forall c :: c in r[i] ==> !IsSpace(c)
    ensures forall i :: 1 <= i < |r| - 1 ==> r[i] != []
    decreases |s|
  {
    if s == [] then [[]]
    else if IsSpace(s[0]) then [[]] + SpaceFields(SkipSpace(s[1..]))
    else
      var rest := SpaceFields(s[1..]);
      [[s[0]] + rest[0]] + rest[1..]
  }

  /** Whether s contains white space. */
  predicate HasSpace(s: string)
  {
    s != [] && (IsSpace(s[0]) || HasSpace(s[1..]))
  }

  /** HasSpace is the search for a white-space character. */
  lemma {:induction false} HasSpaceMeans(s: string)
    ensures HasSpace(s) <==> exists c :: c in s && IsSpace(c)
  {
    if s != [] {
      HasSpaceMeans(s[1..]);
      assert forall c :: c in s <==> c == s[0] || c in s[1..];
    }
  }

  /** Splitting at runs of white space: without any white space the whole string, otherwise the fields with trailing empty ones removed. */
  function SplitOnSpace(s: string): seq<string>
  {
    if !HasSpace(s) then [s] else StripTrailingEmpty(SpaceFields(s))
  }

  /** A line read as tokens the way the preprocessing does it: trimmed, then split at runs of white space. */
  function Tokens(line: string): seq<string>
  {
    SplitOnSpace(Trim(line))
  }

  /** A string that does not start with white space has no empty field at the front. */
  lemma FirstSpaceFieldNonEmpty(s: string)
    requires s != [] && !IsSpace(s[0])
    ensures SpaceFields(s)[0] != []
  {
  }

  /** A non-empty string that does not start with white space splits into non-empty tokens free of white space. */
  lemma SplitOnSpaceShape(t: string)
    requires t != [] && !IsSpace(t[0])
    ensures |SplitOnSpace(t)| >= 1
    ensures forall i :: 0 <= i < |SplitOnSpace(t)| ==>
              SplitOnSpace(t)[i] != [] && forall c :: c in SplitOnSpace(t)[i] ==> !IsSpace(c)
  {
    HasSpaceMeans(t);
    if HasSpace(t) {
      FirstSpaceFieldNonEmpty(t);
      var f := SpaceFields(t);
      var r := StripTrailingEmpty(f);
      assert r != [] by {
        assert f[0] != [];
      }
      forall i | 0 <= i < |r|
        ensures r[i] != []
      {
        assert r[i] == f[i];
      }
    }
  }

  /**
   * Tokenising gives the single empty token for a blank line, and otherwise
   * non-empty tokens free of white space.
   */
  lemma TokensShape(line: string)
    ensures Trim(line) == [] ==> Tokens(line) == [[]]
    ensures Trim(line) != [] ==> && |Tokens(line)| >= 1
                                 && forall i :: 0 <= i < |Tokens(line)| ==>
                                      Tokens(line)[i] != [] && forall c :: c in Tokens(line)[i] ==> !IsSpace(c)
  {
    var t := Trim(line);
    if t != [] {
      assert !IsSpace(t[0]) by {
        assert !IsBlank(t[0]);
      }
      SplitOnSpaceShape(t);
    }
  }

  /** s with every maximal run of white space replaced by one space character. */
  function Collapse(s: string): (r: string)
    ensures |r| <= |s|
    decreases |s|
  {
    if s == [] then []
    else if IsSpace(s[0]) then [' '] + Collapse(SkipSpace(s[1..]))
    else [s[0]] + Collapse(s[1..])
  }

  /** Joining the white-space fields of s with single spaces collapses each run of white space to one space. */
  lemma {:induction false} JoinSpaceFields(s: string)
    ensures Join(SpaceFields(s), ' ') == Collapse(s)
    decreases |s|
  {
    if s != [] {
      if IsSpace(s[0]) {
        JoinSpaceFields(SkipSpace(s[1..]));
      } else {
        JoinSpaceFields(s[1..]);
        var rest := SpaceFields(s[1..]);
        if |rest| >= 2 {
          assert Join(rest, ' ') == rest[0] + [' '] + Join(rest[1..], ' ');
          assert ([[s[0]] + rest[0]] + rest[1..])[1..] == rest[1..];
        }
      }
    }
  }

  /** A string free of white space is its own single field. */
  lemma {:induction false} SpaceFreeIsOneField(s: string)
    requires !HasSpace(s)
    ensures SpaceFields(s) == [s]
  {
    if s != [] {
      SpaceFreeIsOneField(s[1..]);
      assert [s[0]] + s[1..] == s;
    }
  }

  /** Skipping leading white space keeps a last character that is not white space. */
  lemma SkipSpaceKeepsEnd(x: string)
    requires x != [] && !IsSpace(x[|x| - 1])
    ensures SkipSpace(x) != [] && SkipSpace(x)[|SkipSpace(x)| - 1] == x[|x| - 1]
  {
  }

  /** A string ending in a character other than white space has a non-empty last field. */
  lemma {:induction false} LastSpaceFieldNonEmpty(s: string)
    requires s != [] && !IsSpace(s[|s| - 1])
    ensures SpaceFields(s)[|SpaceFields(s)| - 1] != []
    decreases |s|
  {
    if |s| > 1 {
      assert s[1..][|s| - 2] == s[|s| - 1];
      if IsSpace(s[0]) {
        SkipSpaceKeepsEnd(s[1..]);
        LastSpaceFieldNonEmpty(SkipSpace(s[1..]));
      } else {
        LastSpaceFieldNonEmpty(s[1..]);
      }
    }
  }

  /** The tokens of a line, joined with single spaces, are its trim with every run of white space collapsed to one space. */
  lemma TokensJoin(line: string)
    ensures Join(Tokens(line), ' ') == Collapse(Trim(line))
  {
    var t := Trim(line);
    if t != [] {
      assert !IsBlank(t[0]) && !IsBlank(t[|t| - 1]);
      if HasSpace(t) {
        LastSpaceFieldNonEmpty(t);
        assert StripTrailingEmpty(SpaceFields(t)) == SpaceFields(t);
      } else {
        SpaceFreeIsOneField(t);
      }
      JoinSpaceFields(t);
    }
  }

  /**
   * The tokens of a line are exactly, and in order, the fields between the
   * single spaces of its collapsed trim: the maximal runs of characters
   * other than white space.
   */
  lemma TokensAreCollapsedFields(line: string)
    ensures Tokens(line) == Fields(Collapse(Trim(line)), ' ')
  {
    TokensShape(line);
    TokensJoin(line);
    FieldsJoin(Tokens(line), ' ');
  }

  // ------------------------------------------------ first match

  /**
   * The position of the first element satisfying p, if any: `indexOf` on a
   * string, a stream filtered by p and asked for its first element on a list.
   */
  function FirstIndex<T>(xs: seq<T>, p: T -> bool): (r: Option<nat>)
    ensures r.Some? ==> r.value < |xs| && p(xs[r.value]) && forall j :: 0 <= j < r.value ==> !p(xs[j])
    ensures r.None? ==> forall j :: 0 <= j < |xs| ==> !p(xs[j])
  {
    if xs == [] then None
    else if p(xs[0]) then Some(0)
    else
      match FirstIndex(xs[1..], p)
      case Some(k) => Some(k + 1)
      case None => None
  }

  // ------------------------------------------------ %0<width>d

  /** The decimal digit for d. */
  function DigitChar(d: nat): (c: char)
    requires d < 10
    ensures '0' <= c <= '9'
  {
    "0123456789"[d]
  }

  /** The value of a decimal digit. */
  function DigitValue(c: char): (d: nat)
    requires '0' <= c <= '9'
    ensures d < 10
  {
    (c as int) - ('0' as int)
  }

  predicate IsDigits(s: string)
  {
    forall i :: 0 <= i < |s| ==> '0' <= s[i] <= '9'
  }

  /** The decimal digits of n, without leading zeros (`Integer.toString` for n >= 0). */
  function Decimal(n: nat): (r: string)
    ensures |r| >= 1 && IsDigits(r)
  {
    if n < 10 then [DigitChar(n)] else Decimal(n / 10) + [DigitChar(n % 10)]
  }

  /** The value of a string of decimal digits, leading zeros allowed. */
  function DigitsValue(s: string): nat
    requires IsDigits(s)
  {
    if s == [] then 0 else DigitsValue(s[..|s| - 1]) * 10 + DigitValue(s[|s| - 1])
  }

  /** The digit character and its value are inverse. */
  lemma DigitRoundTrip(d: nat)
    requires d < 10
    ensures DigitValue(DigitChar(d)) == d
  {
    var s := "0123456789";
    assert s[0] == '0' && s[1] == '1' && s[2] == '2' && s[3] == '3' && s[4] == '4';
    assert s[5] == '5' && s[6] == '6' && s[7] == '7' && s[8] == '8' && s[9] == '9';
  }

  /** Reading back the decimal digits of n gives n. */
  lemma {:induction false} DecimalRoundTrip(n: nat)
    ensures DigitsValue(Decimal(n)) == n
  {
    if n < 10 {
      DigitRoundTrip(n);
    } else {
      DecimalRoundTrip(n / 10);
      DigitRoundTrip(n % 10);
      var s := Decimal(n);
      assert s[..|s| - 1] == Decimal(n / 10);
    }
  }

  /** Zeros in front do not change the value. */
  lemma {:induction false} LeadingZerosValue(z: nat, s: string)
    requires IsDigits(s)
    ensures IsDigits(Repeat('0', z) + s) && DigitsValue(Repeat('0', z) + s) == DigitsValue(s)
  {
    if s == [] {
      if z > 0 {
        var t := Repeat('0', z);
        assert t + s == t;
        assert t[..z - 1] == Repeat('0', z - 1);
        LeadingZerosValue(z - 1, []);
        assert Repeat('0', z - 1) + [] == Repeat('0', z - 1);
      }
    } else {
      var t := Repeat('0', z) + s;
      LeadingZerosValue(z, s[..|s| - 1]);
      assert t[..|t| - 1] == Repeat('0', z) + s[..|s| - 1];
    }
  }

  /** s with zeros in front to make it at least width long. */
  function PadZeros(s: string, width: nat): (r: string)
    ensures |r| == if |s| < width then width else |s|
  {
    if |s| < width then Repeat('0', width - |s|) + s else s
  }

  /**
   * The `%0Nd` format with N = width: the decimal digits of n padded with
   * zeros to width characters, a minus sign counting towards the width.
   */
  function FormatInt(n: int, width: nat): (r: string)
    requires width > 0
    ensures |r| >= width
  {
    if n < 0 then "-" + PadZeros(Decimal(-n), width - 1) else PadZeros(Decimal(n), width)
  }

  /** Reads an optionally negative decimal number; None unless every other character is a digit. */
  function ParseInt(s: string): Option<int>
  {
    if |s| >= 2 && s[0] == '-' && IsDigits(s[1..]) then Some(0 - DigitsValue(s[1..]))
    else if |s| >= 1 && IsDigits(s) then Some(DigitsValue(s))
    else None
  }

  /** The zero-padded digits of m are digits and read back as m. */
  lemma PaddedDecimalValue(m: nat, w: nat)
    ensures IsDigits(PadZeros(Decimal(m), w)) && DigitsValue(PadZeros(Decimal(m), w)) == m
  {
    var d := Decimal(m);
    DecimalRoundTrip(m);
    if |d| < w {
      LeadingZerosValue(w - |d|, d);
    }
  }

  /** ParseInt reads a non-empty digit string, with or without a minus sign in front. */
  lemma ParseDigits(p: string)
    requires |p| >= 1 && IsDigits(p)
    ensures ParseInt(p) == Some(DigitsValue(p))
    ensures ParseInt("-" + p) == Some(0 - DigitsValue(p))
  {
    assert ("-" + p)[1..] == p;
    assert p[0] != '-';
  }

  /** Reading back a formatted number gives the number, whatever the width. */
  lemma FormatIntRoundTrip(n: int, width: nat)
    requires width > 0
    ensures ParseInt(FormatInt(n, width)) == Some(n)
  {
    var m := if n < 0 then -n else n;
    var p := PadZeros(Decimal(m), if n < 0 then width - 1 else width);
    PaddedDecimalValue(m, if n < 0 then width - 1 else width);
    ParseDigits(p);
  }

  /** Every number below 10^k has at most k digits. */
  lemma {:induction false} DecimalLength(n: nat, k: nat, bound: nat)
    requires k >= 1 && n < bound && bound == Pow10(k)
    ensures |Decimal(n)| <= k
  {
    if n >= 10 {
      assert Pow10(1) == 10;
      assert k >= 2;
      DecimalLength(n / 10, k - 1, Pow10(k - 1));
    }
  }

  function Pow10(k: nat): (r: nat)
    ensures r >= 1
  {
    if k == 0 then 1 else 10 * Pow10(k - 1)
  }

  /** A number from 0 to 9999 formats with %04d to exactly four digits. */
  lemma FourDigits(n: int)
    requires 0 <= n < 10000
    ensures |FormatInt(n, 4)| == 4 && IsDigits(FormatInt(n, 4))
  {
    assert Pow10(4) == 10000;
    DecimalLength(n, 4, 10000);
    var d := Decimal(n);
    if |d| < 4 {
      LeadingZerosValue(4 - |d|, d);
    }
  }
}
