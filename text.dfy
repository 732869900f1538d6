/**
 * The few pieces of `java.lang.String` and `java.lang.Integer` the app
 * relies on: `trim`, `split` on a single-character separator, decimal
 * formatting (`%d`, `%02d`) and `Integer.parseInt`.
 */
module Text {
  import opened Base

  // ---------------------------------------------------------------------------
  // String.trim

  /** `String.trim` removes every leading and trailing character at or below U+0020. */
  predicate IsTrimmable(c: char) {
    c <= ' '
  }

  function TrimStart(s: string): (r: string)
    ensures |r| <= |s| && r == s[|s| - |r|..]
    ensures r != [] ==> !IsTrimmable(r[0])
    ensures forall i :: 0 <= i < |s| - |r| ==> IsTrimmable(s[i])
  {
    if s != [] && IsTrimmable(s[0]) then TrimStart(s[1..]) else s
  }

  function TrimEnd(s: string): (r: string)
    ensures |r| <= |s| && r == s[..|r|]
    ensures r != [] ==> !IsTrimmable(r[|r| - 1])
    ensures forall i :: |r| <= i < |s| ==> IsTrimmable(s[i])
  {
    if s != [] && IsTrimmable(s[|s| - 1]) then TrimEnd(s[..|s| - 1]) else s
  }

  /**
   * `s.trim()`: the longest slice of `s` that neither starts nor ends with a
   * trimmable character; empty exactly when `s` holds nothing else.
   */
  function Trim(s: string): (r: string)
    ensures |r| <= |s|
    ensures r != [] ==> !IsTrimmable(r[0]) && !IsTrimmable(r[|r| - 1])
    ensures r == [] <==> forall i :: 0 <= i < |s| ==> IsTrimmable(s[i])
  {
    TrimEnd(TrimStart(s))
  }

  /** Trimming a string that already starts and ends with visible characters changes nothing. */
  lemma {:induction false} TrimOfTrimmed(s: string)
    requires s != [] ==> !IsTrimmable(s[0]) && !IsTrimmable(s[|s| - 1])
    ensures Trim(s) == s
  {
  }

  /** How Java's string concatenation renders a String that may be null. */
  function Str(s: Option<string>): (r: string)
    ensures s.Some? ==> r == s.value
    ensures s.None? ==> r == "null"
  {
    if s.Some? then s.value else "null"
  }

  // ---------------------------------------------------------------------------
  // Decimal digits

  predicate IsDigit(c: char) {
    '0' <= c <= '9'
  }

  predicate AllDigits(s: string) {
    forall i :: 0 <= i < |s| ==> IsDigit(s[i])
  }

  function DigitChar(d: nat): (c: char)
    requires d < 10
    ensures IsDigit(c)
  {
    (48 + d) as char
  }

  function DigitValue(c: char): nat
    requires IsDigit(c)
  {
    (c as int) - 48
  }

  /** The number a run of decimal digits denotes (most significant first). */
  function DigitsValue(s: string): nat
    requires AllDigits(s)
  {
    if s == [] then 0 else DigitsValue(s[..|s| - 1]) * 10 + DigitValue(s[|s| - 1])
  }

  /** The decimal numeral of a natural number, without leading zeros. */
  function Dec(n: nat): (r: string)
    ensures r != [] && AllDigits(r)
    ensures n < 10 <==> |r| == 1
  {
    if n < 10 then [DigitChar(n)] else Dec(n / 10) + [DigitChar(n % 10)]
  }

  /** Reading back the numeral `Dec(n)` gives `n`. */
  lemma {:induction false} DigitsValueOfDec(n: nat)
    ensures DigitsValue(Dec(n)) == n
  {
    if n >= 10 {
      var s := Dec(n);
      assert s[..|s| - 1] == Dec(n / 10);
      DigitsValueOfDec(n / 10);
    }
  }

  /** A leading zero does not change the value of a numeral. */
  lemma {:induction false} DigitsValueLeadingZero(s: string)
    requires AllDigits(s)
    ensures AllDigits("0" + s) && DigitsValue("0" + s) == DigitsValue(s)
  {
    if s != [] {
      var t := "0" + s;
      assert t[..|t| - 1] == "0" + s[..|s| - 1];
      DigitsValueLeadingZero(s[..|s| - 1]);
    }
  }

  /** `String.format("%d", n)`. */
  function FormatInt(n: int): string {
    if n < 0 then "-" + Dec(-n) else Dec(n)
  }

  /**
   * `String.format("%02d", n)`: zero-padded to width two; numbers that
   * already take two characters (including every negative one) are unchanged.
   */
  function Pad2(n: int): (r: string)
    ensures |r| >= 2
    ensures 0 <= n < 100 ==> |r| == 2 && AllDigits(r)
  {
    if 0 <= n < 10 then "0" + Dec(n) else FormatInt(n)
  }

  // ---------------------------------------------------------------------------
  // Integer.parseInt

  /**
   * `Integer.parseInt(s)`: an optional sign and at least one ASCII digit,
   * denoting a value in Java's `int` range; `None` where Java throws
   * NumberFormatException. Java also takes the decimal digits of other
   * scripts; here they fail to parse.
   */
  function ParseInt(s: string): (r: Option<int32>)
    ensures r.Some? ==> s != []
  {
    if s == [] then None
    else if s[0] == '-' || s[0] == '+' then
      if |s| == 1 || !AllDigits(s[1..]) then None
      else
        var v: int := if s[0] == '-' then -(DigitsValue(s[1..]) as int) else DigitsValue(s[1..]);
        if InInt32(v) then Some(v) else None
    else if !AllDigits(s) then None
    else
      var v := DigitsValue(s);
      if InInt32(v) then Some(v) else None
  }

  /** `Integer.parseInt` reads back every numeral `%d` prints for a non-negative `int`. */
  lemma {:induction false} ParseFormatInt(n: nat)
    requires n < TWO_POW_31
    ensures ParseInt(FormatInt(n)) == Some(n)
  {
    DigitsValueOfDec(n);
  }

  /** `Integer.parseInt` reads back every two-digit field `%02d` prints. */
  lemma {:induction false} ParsePad2(n: int)
    requires 0 <= n < 100
    ensures ParseInt(Pad2(n)) == Some(n)
  {
    DigitsValueOfDec(n);
    if n < 10 {
      DigitsValueLeadingZero(Dec(n));
    }
  }

  // ---------------------------------------------------------------------------
  // String.split on a one-character separator

  /** Every piece between separators, including empty ones. */
  function Pieces(s: string, sep: char): (r: seq<string>)
    ensures |r| >= 1
  {
    if s == [] then [""]
    else
      var rest := Pieces(s[1..], sep);
      if s[0] == sep then [""] + rest else [[s[0]] + rest[0]] + rest[1..]
  }

  function DropTrailingEmpty(p: seq<string>): (r: seq<string>)
    ensures |r| <= |p| && r == p[..|r|]
    ensures r != [] ==> r[|r| - 1] != ""
  {
    if p != [] && p[|p| - 1] == "" then DropTrailingEmpty(p[..|p| - 1]) else p
  }

  /**
   * `s.split(sep)` for a separator that is not a regex metacharacter: the
   * string itself when the separator does not occur, otherwise the pieces
   * with trailing empty strings removed.
   */
  function Split(s: string, sep: char): (r: seq<string>)
    ensures sep !in s ==> r == [s]
  {
    if sep !in s then [s] else DropTrailingEmpty(Pieces(s, sep))
  }

  lemma {:induction false} PiecesOfPlain(s: string, sep: char)
    requires sep !in s
    ensures Pieces(s, sep) == [s]
  {
    if s != [] {
      assert s[0] in s;
      assert forall c :: c in s[1..] ==> c in s;
      PiecesOfPlain(s[1..], sep);
      assert [s[0]] + s[1..] == s;
    }
  }

  lemma {:induction false} PiecesPrefix(a: string, t: string, sep: char)
    requires sep !in a
    ensures Pieces(a + t, sep) == [a + Pieces(t, sep)[0]] + Pieces(t, sep)[1..]
  {
    if a != [] {
      assert a[0] in a;
      assert forall c :: c in a[1..] ==> c in a;
      assert (a + t)[0] == a[0];
      assert (a + t)[1..] == a[1..] + t;
      var p := Pieces(t, sep);
      PiecesPrefix(a[1..], t, sep);
      var rest := Pieces(a[1..] + t, sep);
      assert rest[0] == a[1..] + p[0] && rest[1..] == p[1..];
      assert [a[0]] + (a[1..] + p[0]) == a + p[0];
    } else {
      assert a + t == t;
      assert a + Pieces(t, sep)[0] == Pieces(t, sep)[0];
    }
  }

  /** Splitting `a:b` on `:` gives back `a` and `b` when neither holds the separator and `b` is not empty. */
  lemma {:induction false} SplitPair(a: string, b: string, sep: char)
    requires sep !in a && sep !in b && b != []
    ensures Split(a + [sep] + b, sep) == [a, b]
  {
    var s := a + [sep] + b;
    assert s[|a|] == sep;
    assert ([sep] + b)[1..] == b;
    PiecesOfPlain(b, sep);
    assert Pieces([sep] + b, sep) == [""] + [b];
    assert s == a + ([sep] + b);
    PiecesPrefix(a, [sep] + b, sep);
    assert a + "" == a;
    assert Pieces(s, sep) == [a, b];
    assert sep in s;
  }
  /** Joining `a` to the rest with a separator puts `a` in a piece of its own. */
  lemma {:induction false} PiecesJoin(a: string, t: string, sep: char)
    requires sep !in a
    ensures Pieces(a + [sep] + t, sep) == [a] + Pieces(t, sep)
  {
    assert a + [sep] + t == a + ([sep] + t);
    assert ([sep] + t)[1..] == t;
    assert Pieces([sep] + t, sep) == [""] + Pieces(t, sep);
    PiecesPrefix(a, [sep] + t, sep);
    assert a + "" == a;
  }

  /** Splitting `a/b/c` on `/` gives back the three parts when none holds the separator and `c` is not empty. */
  lemma {:induction false} SplitTriple(a: string, b: string, c: string, sep: char)
    requires sep !in a && sep !in b && sep !in c && c != []
    ensures Split(a + [sep] + b + [sep] + c, sep) == [a, b, c]
  {
    var s := a + [sep] + b + [sep] + c;
    PiecesOfPlain(c, sep);
    PiecesJoin(b, c, sep);
    assert s == a + [sep] + (b + [sep] + c);
    PiecesJoin(a, b + [sep] + c, sep);
    assert Pieces(s, sep) == [a, b, c];
    assert s[|a|] == sep;
  }
}
