/** The timestamp text used by the annotator: `formatTimeStamp` renders a playback
    time as `M:SS:CC`, and the progress marker and the end-time slider read such a
    text back as `parseFloat(f[0]) * 60 + parseFloat(f[1])` over its `:` fields.
    Times are whole centiseconds; the reading keeps whole seconds only. */
module Timestamp {
  import opened Wrappers

  const Colon: char := ':'

  predicate IsDigit(ch: char) {
    '0' <= ch <= '9'
  }

  predicate AllDigits(s: string) {
    forall i :: 0 <= i < |s| ==> IsDigit(s[i])
  }

  function DigitValue(ch: char): nat
    requires IsDigit(ch)
  {
    ch as int - '0' as int
  }

  function DigitChar(d: nat): (ch: char)
    requires d < 10
    ensures IsDigit(ch) && DigitValue(ch) == d
  {
    ('0' as int + d) as char
  }

  /** The number a run of decimal digits denotes, most significant digit first. */
  function DigitsValue(s: string): nat
    requires AllDigits(s)
  {
    if s == [] then 0 else DigitsValue(s[..|s| - 1]) * 10 + DigitValue(s[|s| - 1])
  }

  /** `n.toString()` for a whole number: its decimal digits, without leading zeros. */
  function NatToString(n: nat): (r: string)
    ensures r != [] && AllDigits(r) && DigitsValue(r) == n
    ensures r[0] == '0' ==> r == "0"
    ensures |r| == 1 <==> n < 10
    ensures |r| <= 2 <==> n < 100
  {
    if n < 10 then [DigitChar(n)]
    else
      var p := NatToString(n / 10);
      var r := p + [DigitChar(n % 10)];
      assert r[..|r| - 1] == p;
      r
  }

  /** `s.padStart(2, "0")`: zeros are put in front until the text has two characters. */
  function PadTwo(s: string): string {
    if |s| >= 2 then s else seq(2 - |s|, _ => '0') + s
  }

  /** Padding reaches two characters, keeps the text as its suffix and adds only zeros. */
  lemma PadTwoPads(s: string)
    ensures var r := PadTwo(s);
      && |r| == (if |s| < 2 then 2 else |s|)
      && r[|r| - |s|..] == s
      && forall i :: 0 <= i < |r| - |s| ==> r[i] == '0'
  {
  }

  /** How many times `ch` occurs in `s`. */
  function Count(s: string, ch: char): nat {
    if s == [] then 0 else (if s[0] == ch then 1 else 0) + Count(s[1..], ch)
  }

  /** `s.split(sep)`: the maximal runs between separators, empty runs included. */
  function Split(s: string, sep: char): (r: seq<string>)
    ensures |r| >= 1
    ensures forall i :: 0 <= i < |r| ==> sep !in r[i]
    ensures Join(r, sep) == s
    decreases |s|
  {
    if s == [] then [[]]
    else
      var rest := Split(s[1..], sep);
      if s[0] == sep then
        assert [sep] + Join(rest, sep) == s;
        [[]] + rest
      else
        var r := [[s[0]] + rest[0]] + rest[1..];
        assert r[1..] == rest[1..];
        r
  }

  /** Splitting gives one more field than there are separators. */
  lemma {:induction false} SplitCount(s: string, sep: char)
    ensures |Split(s, sep)| == Count(s, sep) + 1
    decreases |s|
  {
    if s != [] {
      SplitCount(s[1..], sep);
    }
  }

  /** The fields put back together with the separator between them. */
  function Join(fields: seq<string>, sep: char): string
    requires |fields| >= 1
  {
    if |fields| == 1 then fields[0] else fields[0] + [sep] + Join(fields[1..], sep)
  }

  lemma {:induction false} SplitNoSeparator(a: string, sep: char)
    requires sep !in a
    ensures Split(a, sep) == [a]
    decreases |a|
  {
    if a != [] {
      SplitNoSeparator(a[1..], sep);
      assert [a[0]] + a[1..] == a;
    }
  }

  lemma {:induction false} SplitCons(a: string, b: string, sep: char)
    requires sep !in a
    ensures Split(a + [sep] + b, sep) == [a] + Split(b, sep)
    decreases |a|
  {
    var s := a + [sep] + b;
    if a == [] {
      assert s[1..] == b;
    } else {
      assert s[1..] == a[1..] + [sep] + b;
      SplitCons(a[1..], b, sep);
      assert [a[0]] + a[1..] == a;
    }
  }

  /** Splitting undoes joining, as long as no field holds the separator. */
  lemma {:induction false} SplitJoin(fields: seq<string>, sep: char)
    requires |fields| >= 1
    requires forall i :: 0 <= i < |fields| ==> sep !in fields[i]
    ensures Split(Join(fields, sep), sep) == fields
    decreases |fields|
  {
    if |fields| == 1 {
      SplitNoSeparator(fields[0], sep);
    } else {
      SplitCons(fields[0], Join(fields[1..], sep), sep);
      SplitJoin(fields[1..], sep);
      assert [fields[0]] + fields[1..] == fields;
    }
  }

  /** The longest prefix of `s` made of decimal digits: what `parseFloat` reads of a
      field that carries neither sign, point nor exponent. */
  function DigitPrefix(s: string): (p: string)
    ensures |p| <= |s| && p == s[..|p|]
    ensures AllDigits(p)
    ensures |p| < |s| ==> !IsDigit(s[|p|])
  {
    if s == [] || !IsDigit(s[0]) then [] else [s[0]] + DigitPrefix(s[1..])
  }

  /** `parseFloat(f)`: `None` stands for NaN, the result when `f` does not start with a digit
      (also when the field is missing: `parseFloat(undefined)`). */
  function ParseLeading(f: Option<string>): (r: Option<nat>)
    ensures f.Some? && AllDigits(f.value) && f.value != [] ==> r == Some(DigitsValue(f.value))
    ensures f.None? ==> r == None
  {
    match f
    case None => None
    case Some(s) =>
      var p := DigitPrefix(s);
      assert AllDigits(s) ==> p == s by {
        if AllDigits(s) {
          assert |p| == |s|;
          assert s[..|s|] == s;
        }
      }
      if p == [] then None else Some(DigitsValue(p))
  }

  /** The `i`-th `:` field, `undefined` past the end. */
  function Field(fields: seq<string>, i: nat): Option<string> {
    if i < |fields| then Some(fields[i]) else None
  }

  /** Whole seconds read back from a timestamp text: minutes field * 60 + seconds field.
      The centiseconds field is never looked at. A text without a `:` reads as NaN. */
  function Decode(s: string): (r: Option<nat>)
    ensures Colon !in s ==> r == None
  {
    var fields := Split(s, Colon);
    if Colon !in s then SplitNoSeparator(s, Colon); None
    else
      match (ParseLeading(Field(fields, 0)), ParseLeading(Field(fields, 1)))
      case (Some(m), Some(sec)) => Some(m * 60 + sec)
      case _ => None
  }

  /** A number below 100 as `padStart(2, "0")` renders it: exactly two digits. */
  function Two(n: nat): (r: string)
    requires n < 100
    ensures |r| == 2 && AllDigits(r) && DigitsValue(r) == n
  {
    var s := NatToString(n);
    PadTwoPads(s);
    if n < 10 then
      assert PadTwo(s) == ['0', s[0]];
      DigitsValuePair('0', s[0]);
      PadTwo(s)
    else
      PadTwo(s)
  }

  lemma DigitsValuePair(a: char, b: char)
    requires IsDigit(a) && IsDigit(b)
    ensures DigitsValue([a, b]) == DigitValue(a) * 10 + DigitValue(b)
  {
    assert [a, b][..1] == [a];
    assert [a][..0] == [];
    assert DigitsValue([a]) == DigitValue(a);
  }

  /** The minute, second and centisecond parts of a time, and how they rebuild it. */
  lemma Parts(c: nat)
    ensures c / 6000 == (c / 100) / 60
    ensures c / 100 == (c / 6000) * 60 + (c / 100) % 60
    ensures c == (c / 100) * 100 + c % 100
  {
    var k, q := c / 100, (c / 100) / 60;
    assert c == 6000 * q + 100 * (k % 60) + c % 100;
    assert 100 * (k % 60) + c % 100 < 6000;
  }

  /** `formatTimeStamp(c / 100)`: the minutes unpadded, then the seconds within the minute
      and the centiseconds within the second, two digits each, joined by `:`. */
  function Format(c: nat): string {
    NatToString(c / 6000) + [Colon] + Two((c / 100) % 60) + [Colon] + Two(c % 100)
  }

  lemma NoSeparatorInDigits(s: string)
    requires AllDigits(s)
    ensures Colon !in s
  {
  }

  /** Three separator-free fields joined by two separators split back into those fields. */
  lemma SplitThree(a: string, b: string, d: string, sep: char)
    requires sep !in a && sep !in b && sep !in d
    ensures Split(a + [sep] + b + [sep] + d, sep) == [a, b, d]
  {
    var bd := b + [sep] + d;
    SplitNoSeparator(d, sep);
    SplitCons(b, d, sep);
    assert Split(bd, sep) == [b, d];
    assert a + [sep] + b + [sep] + d == a + [sep] + bd;
    SplitCons(a, bd, sep);
  }

  /** A timestamp holds exactly two `:`; its three fields are digit runs: the minutes
      without leading zeros, then exactly two digits for the seconds within the minute and
      two for the centiseconds within the second. */
  lemma FormatFields(c: nat)
    ensures Count(Format(c), Colon) == 2
    ensures var f := Split(Format(c), Colon);
      && |f| == 3
      && f[0] != [] && AllDigits(f[0]) && DigitsValue(f[0]) == c / 6000
      && (f[0][0] == '0' ==> f[0] == "0")
      && |f[1]| == 2 && AllDigits(f[1]) && DigitsValue(f[1]) == (c / 100) % 60
      && |f[2]| == 2 && AllDigits(f[2]) && DigitsValue(f[2]) == c % 100
  {
    var m := NatToString(c / 6000);
    var ss := Two((c / 100) % 60);
    var cc := Two(c % 100);
    NoSeparatorInDigits(m);
    NoSeparatorInDigits(ss);
    NoSeparatorInDigits(cc);
    SplitThree(m, ss, cc, Colon);
    SplitCount(Format(c), Colon);
  }

  /** The round trip recovers the whole seconds and drops the centiseconds. */
  lemma DecodeFormat(c: nat)
    ensures Decode(Format(c)) == Some(c / 100)
  {
    var s := Format(c);
    assert s[|NatToString(c / 6000)|] == Colon;
    var f := Split(s, Colon);
    FormatFields(c);
    var m, sec := ParseLeading(Field(f, 0)), ParseLeading(Field(f, 1));
    assert m == Some(c / 6000);
    assert sec == Some((c / 100) % 60);
    assert Decode(s) == Some(m.value * 60 + sec.value);
    Parts(c);
  }

  /** Two times read back alike exactly when they share their whole second. */
  lemma DecodeIgnoresCentiseconds(c1: nat, c2: nat)
    ensures Decode(Format(c1)) == Decode(Format(c2)) <==> c1 / 100 == c2 / 100
  {
    DecodeFormat(c1);
    DecodeFormat(c2);
  }

  /** The text itself loses nothing: distinct times give distinct timestamps. */
  lemma FormatInjective(c1: nat, c2: nat)
    requires Format(c1) == Format(c2)
    ensures c1 == c2
  {
    FormatFields(c1);
    FormatFields(c2);
    Parts(c1);
    Parts(c2);
  }

  /** A text `formatTimeStamp` can produce. */
  ghost predicate IsTimestamp(s: string) {
    exists c: nat :: s == Format(c)
  }

  /** A timestamp is never the empty text, so JavaScript treats it as truthy. */
  lemma TimestampNonEmpty(s: string)
    requires IsTimestamp(s)
    ensures s != ""
  {
    var c: nat :| s == Format(c);
    assert s[|NatToString(c / 6000)|] == Colon;
  }
}
