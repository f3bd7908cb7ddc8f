/**
 * The serial command line `<L,R,T,B>\n` (ObjectTraker.py, line 132), with
 * each number written as Python's `str` writes an int: base 10, a leading
 * `-` for negative values, no leading zeros.
 *
 * The receiver of the line is not part of this model; ParseCommand below is
 * a reference reader for the same format, used only to state that the line
 * loses nothing (ParseCommand(CommandLine(f)) == Some(f)).
 */
module Wire {
  import opened Wrappers
  import opened Deflection

  predicate IsDigit(c: char)
  {
    '0' <= c <= '9'
  }

  predicate AllDigits(s: string)
  {
    forall i :: 0 <= i < |s| ==> IsDigit(s[i])
  }

  /** The characters a command line is made of. */
  predicate IsWireChar(c: char)
  {
    IsDigit(c) || c == '-' || c == ',' || c == '<' || c == '>' || c == '\n'
  }

  function DigitChar(d: int): (c: char)
    requires 0 <= d < 10
    ensures IsDigit(c) && c as int - '0' as int == d
  {
    "0123456789"[d]
  }

  /** The decimal digits of n, most significant first. */
  function NatToString(n: nat): (s: string)
    ensures |s| >= 1 && AllDigits(s)
    ensures |s| > 1 ==> s[0] != '0'
    decreases n
  {
    if n < 10 then [DigitChar(n)] else NatToString(n / 10) + [DigitChar(n % 10)]
  }

  /** `str(i)` for a Python int. */
  function IntToString(i: int): (s: string)
    ensures |s| >= 1
    ensures forall k :: 0 <= k < |s| ==> IsDigit(s[k]) || (k == 0 && s[k] == '-')
    ensures (s[0] == '-') <==> i < 0
    ensures s[0] == '-' ==> |s| >= 2 && s[1] != '0'
    ensures s[0] != '-' && |s| > 1 ==> s[0] != '0'
  {
    if i < 0 then "-" + NatToString(-i) else NatToString(i)
  }

  predicate AllWire(s: string)
  {
    forall k :: 0 <= k < |s| ==> IsWireChar(s[k])
  }

  lemma WireConcat(a: string, b: string)
    requires AllWire(a) && AllWire(b)
    ensures AllWire(a + b)
  {
    forall k | 0 <= k < |a + b| ensures IsWireChar((a + b)[k]) {
      if k < |a| { assert (a + b)[k] == a[k]; } else { assert (a + b)[k] == b[k - |a|]; }
    }
  }

  /** The four numbers separated by commas: the inside of the brackets. */
  function Fields(f: Fins): (s: string)
    ensures |s| >= 7 && AllWire(s)
  {
    var l, r, t, b := IntToString(f.left), IntToString(f.right), IntToString(f.top), IntToString(f.bottom);
    WireConcat(l, ",");
    WireConcat(l + ",", r);
    WireConcat(l + "," + r, ",");
    WireConcat(l + "," + r + ",", t);
    WireConcat(l + "," + r + "," + t, ",");
    WireConcat(l + "," + r + "," + t + ",", b);
    l + "," + r + "," + t + "," + b
  }

  /** The f-string `f"<{fin_left},{fin_right},{fin_top},{fin_bottom}>\n"`. */
  function CommandLine(f: Fins): (s: string)
    ensures |s| >= 10 && s[0] == '<' && s[|s| - 2..] == ">\n"
    ensures s[1..|s| - 2] == Fields(f)
    ensures AllWire(s)
  {
    var s := "<" + Fields(f) + ">\n";
    WireConcat("<", Fields(f));
    WireConcat("<" + Fields(f), ">\n");
    assert s[1..|s| - 2] == Fields(f);
    s
  }

  // ---- A reference reader for the line format ----

  /** The value of a string of decimal digits. */
  function DigitsValue(s: string): nat
    requires AllDigits(s)
  {
    if |s| == 0 then 0
    else DigitsValue(s[..|s| - 1]) * 10 + (s[|s| - 1] as int - '0' as int)
  }

  function ParseNat(s: string): Option<int>
  {
    if |s| > 0 && AllDigits(s) then Some(DigitsValue(s)) else None
  }

  function ParseInt(s: string): Option<int>
  {
    if |s| > 0 && s[0] == '-' then
      match ParseNat(s[1..])
      case Some(n) => Some(-n)
      case None => None
    else
      match ParseNat(s)
      case Some(n) => Some(n)
      case None => None
  }

  /** The pieces of s between occurrences of sep. */
  function Split(s: string, sep: char): (parts: seq<string>)
    ensures |parts| >= 1
  {
    if |s| == 0 then [""]
    else
      var rest := Split(s[1..], sep);
      if s[0] == sep then [""] + rest
      else [[s[0]] + rest[0]] + rest[1..]
  }

  function ParseCommand(s: string): Option<Fins>
  {
    if |s| >= 3 && s[0] == '<' && s[|s| - 2..] == ">\n" then
      var parts := Split(s[1..|s| - 2], ',');
      if |parts| == 4 then
        match (ParseInt(parts[0]), ParseInt(parts[1]), ParseInt(parts[2]), ParseInt(parts[3]))
        case (Some(l), Some(r), Some(t), Some(b)) => Some(Fins(l, r, t, b))
        case _ => None
      else None
    else None
  }

  // ---- Round trip ----

  lemma {:induction false} NatRoundTrip(n: nat)
    ensures DigitsValue(NatToString(n)) == n
    decreases n
  {
    var s := NatToString(n);
    if n >= 10 {
      NatRoundTrip(n / 10);
      assert s[..|s| - 1] == NatToString(n / 10);
    }
  }

  /** Reading back `str(i)` gives i. */
  lemma IntRoundTrip(i: int)
    ensures ParseInt(IntToString(i)) == Some(i)
  {
    var s := IntToString(i);
    if i < 0 {
      var digits := NatToString(-i);
      assert s[0] == '-' && s[1..] == digits;
      NatRoundTrip(-i);
      assert ParseNat(digits) == Some(-i);
    } else {
      assert s == NatToString(i);
      assert IsDigit(s[0]);
      NatRoundTrip(i);
      assert ParseNat(s) == Some(i);
    }
  }

  /** A piece without the separator stays whole. */
  lemma {:induction false} SplitNoSep(a: string, sep: char)
    requires forall k :: 0 <= k < |a| ==> a[k] != sep
    ensures Split(a, sep) == [a]
  {
    if |a| > 0 {
      SplitNoSep(a[1..], sep);
      assert [a[0]] + a[1..] == a;
    }
  }

  /** Splitting a ++ [sep] ++ b separates a from the pieces of b. */
  lemma {:induction false} SplitAppend(a: string, sep: char, b: string)
    requires forall k :: 0 <= k < |a| ==> a[k] != sep
    ensures Split(a + [sep] + b, sep) == [a] + Split(b, sep)
  {
    if |a| == 0 {
      assert a + [sep] + b == [sep] + b;
      assert ([sep] + b)[1..] == b;
    } else {
      assert (a + [sep] + b)[1..] == a[1..] + [sep] + b;
      SplitAppend(a[1..], sep, b);
      assert [a[0]] + a[1..] == a;
    }
  }

  lemma NoComma(i: int)
    ensures forall k :: 0 <= k < |IntToString(i)| ==> IntToString(i)[k] != ','
  {
  }

  /** The fields split back into the four numbers' texts. */
  lemma SplitFields(f: Fins)
    ensures Split(Fields(f), ',') ==
      [IntToString(f.left), IntToString(f.right), IntToString(f.top), IntToString(f.bottom)]
  {
    var l, r, t, b := IntToString(f.left), IntToString(f.right), IntToString(f.top), IntToString(f.bottom);
    NoComma(f.left); NoComma(f.right); NoComma(f.top); NoComma(f.bottom);
    var tb := t + [','] + b;
    var rtb := r + [','] + tb;
    assert Fields(f) == l + [','] + rtb;
    SplitNoSep(b, ',');
    SplitAppend(t, ',', b);
    SplitAppend(r, ',', tb);
    SplitAppend(l, ',', rtb);
  }

  /** The command line is read back as the four values it was made from. */
  lemma CommandRoundTrip(f: Fins)
    ensures ParseCommand(CommandLine(f)) == Some(f)
  {
    SplitFields(f);
    IntRoundTrip(f.left); IntRoundTrip(f.right); IntRoundTrip(f.top); IntRoundTrip(f.bottom);
  }

  /** Distinct commands give distinct lines. */
  lemma CommandLineInjective(f: Fins, g: Fins)
    ensures CommandLine(f) == CommandLine(g) <==> f == g
  {
    if CommandLine(f) == CommandLine(g) {
      CommandRoundTrip(f);
      CommandRoundTrip(g);
    }
  }

  /** Example: a centred target is sent as `<0,0,0,0>` and a newline. */
  lemma CentredLine()
    ensures CommandLine(Fins(0, 0, 0, 0)) == "<0,0,0,0>\n"
  {
  }

  /** A negative value is written with its sign: `<-30,30,0,0>` and a newline. */
  lemma RightEdgeLine()
    ensures CommandLine(Fins(-30, 30, 0, 0)) == "<-30,30,0,0>\n"
  {
  }
}
