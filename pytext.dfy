/** The pieces of Python's str and sequence semantics the STAR reader relies on:
    str.strip(), str.split(), int() of a token, str() of an int, the ordering of
    str values used by sorted(), and indexing with negative positions. */
module PyText {
  import opened Errors
  import Seqs

  /** str.isspace(): the characters strip() and split() treat as whitespace. */
  predicate IsSpace(c: char)
  {
    var n := c as int;
    if n <= 32 then (9 <= n <= 13) || 28 <= n
    else if n < 0x85 then false
    else n == 0x85 || n == 0xA0 || n == 0x1680 || (0x2000 <= n <= 0x200A) || n == 0x2028 || n == 0x2029
         || n == 0x202F || n == 0x205F || n == 0x3000
  }

  predicate NoSpace(s: string)
  {
    forall i :: 0 <= i < |s| ==> !IsSpace(s[i])
  }

  /** s has no whitespace at either end, which is what str.strip() returns. */
  predicate Stripped(s: string)
  {
    s == [] || (!IsSpace(s[0]) && !IsSpace(s[|s| - 1]))
  }

  /** s without its longest whitespace prefix. */
  function TrimLeft(s: string): (r: string)
    ensures |r| <= |s| && r == s[|s| - |r|..]
    ensures r == [] || !IsSpace(r[0])
    ensures forall i :: 0 <= i < |s| - |r| ==> IsSpace(s[i])
  {
    if s != [] && IsSpace(s[0]) then
      var r := TrimLeft(s[1..]);
      assert forall i :: 1 <= i < |s| ==> s[i] == s[1..][i - 1];
      r
    else s
  }

  /** s without its longest whitespace suffix. */
  function TrimRight(s: string): (r: string)
    ensures |r| <= |s| && r == s[..|r|]
    ensures r == [] || !IsSpace(r[|r| - 1])
    ensures forall i :: |r| <= i < |s| ==> IsSpace(s[i])
  {
    if s != [] && IsSpace(s[|s| - 1]) then
      var r := TrimRight(s[..|s| - 1]);
      assert forall i :: 0 <= i < |s| - 1 ==> s[i] == s[..|s| - 1][i];
      r
    else s
  }

  /** str.strip(): the result has no whitespace at either end, and a string
      without any is left as it is. */
  function Strip(s: string): (r: string)
    ensures Stripped(r) && |r| <= |s|
    ensures s != [] && !IsSpace(s[0]) ==> r == s[..|r|]
    ensures Stripped(s) ==> r == s
  {
    TrimRight(TrimLeft(s))
  }

  lemma TrimLeftSpace(c: char, rest: string)
    requires IsSpace(c)
    ensures TrimLeft([c] + rest) == TrimLeft(rest)
  {
    assert ([c] + rest)[1..] == rest;
  }

  lemma TrimRightSpace(rest: string, c: char)
    requires IsSpace(c)
    ensures TrimRight(rest + [c]) == TrimRight(rest)
  {
    assert (rest + [c])[..|rest|] == rest;
  }

  /** The comment line the writers emit, a space on each side of the comment,
      strips back to the comment. */
  lemma StripPadded(t: string)
    requires Stripped(t)
    ensures Strip(" " + t + " ") == t
  {
    assert " " + t + " " == [' '] + (t + [' ']);
    TrimLeftSpace(' ', t + [' ']);
    if t == [] {
      assert [] + [' '] == [' '] + [];
      TrimLeftSpace(' ', []);
    } else {
      assert TrimLeft(t + [' ']) == t + [' '];
      TrimRightSpace(t, ' ');
    }
  }

  /** The length of the run of non-whitespace that starts s. */
  function TokenLen(s: string): (n: nat)
    ensures n <= |s| && NoSpace(s[..n]) && (n == |s| || IsSpace(s[n]))
  {
    if s == [] || IsSpace(s[0]) then 0 else 1 + TokenLen(s[1..])
  }

  /** Every field is a nonempty run of non-whitespace. */
  predicate Fields(r: seq<string>)
  {
    forall k :: 0 <= k < |r| ==> r[k] != [] && NoSpace(r[k])
  }

  lemma FieldsCons(tok: string, rest: seq<string>)
    requires tok != [] && NoSpace(tok) && Fields(rest)
    ensures Fields([tok] + rest)
  {
  }

  /** str.split() with no argument: the maximal runs of non-whitespace, in order. */
  function Split(s: string): (r: seq<string>)
    ensures Fields(r)
    decreases |s|
  {
    var t := TrimLeft(s);
    if t == [] then []
    else
      var n := TokenLen(t);
      var rest := Split(t[n..]);
      FieldsCons(t[..n], rest);
      [t[..n]] + rest
  }

  lemma {:induction false} TokenLenOf(tok: string, rest: string)
    requires NoSpace(tok)
    requires rest == [] || IsSpace(rest[0])
    ensures TokenLen(tok + rest) == |tok|
    decreases |tok|
  {
    if tok != [] {
      assert (tok + rest)[1..] == tok[1..] + rest;
      TokenLenOf(tok[1..], rest);
    } else {
      assert tok + rest == rest;
    }
  }

  /** A token followed by whitespace (or nothing) splits off as the first field. */
  lemma SplitCons(tok: string, rest: string)
    requires tok != [] && NoSpace(tok)
    requires rest == [] || IsSpace(rest[0])
    ensures Split(tok + rest) == [tok] + Split(rest)
  {
    var s := tok + rest;
    assert TrimLeft(s) == s;
    TokenLenOf(tok, rest);
    assert s[..|tok|] == tok;
    assert s[|tok|..] == rest;
  }

  lemma {:induction false} SplitSkipsSpace(c: char, s: string)
    requires IsSpace(c)
    ensures Split([c] + s) == Split(s)
  {
    assert ([c] + s)[1..] == s;
    assert TrimLeft([c] + s) == TrimLeft(s);
  }

  /** A single token splits to itself. */
  lemma SplitSingle(tok: string)
    requires tok != [] && NoSpace(tok)
    ensures Split(tok) == [tok]
  {
    assert tok + [] == tok;
    SplitCons(tok, []);
  }

  /** Two tokens separated by a space split into the two of them. */
  lemma SplitTwo(first: string, second: string)
    requires first != [] && NoSpace(first) && second != [] && NoSpace(second)
    ensures Split(first + ([' '] + second)) == [first, second]
  {
    calc {
      Split(first + ([' '] + second));
      { SplitCons(first, [' '] + second); }
      [first] + Split([' '] + second);
      { SplitSkipsSpace(' ', second); }
      [first] + Split(second);
      { SplitSingle(second); }
      [first] + [second];
    }
  }

  /** A data row as the writers emit it: every cell followed by a tab. */
  function JoinCells(cells: seq<string>): (line: string)
    ensures |line| >= |cells|
  {
    if cells == [] then "" else cells[0] + ['\t'] + JoinCells(cells[1..])
  }

  /** A cell and its tab split off as the first field. */
  lemma SplitCellThenTab(cell: string, rest: string)
    requires cell != [] && NoSpace(cell)
    ensures Split(cell + (['\t'] + rest)) == [cell] + Split(rest)
  {
    SplitCons(cell, ['\t'] + rest);
    SplitSkipsSpace('\t', rest);
  }

  lemma JoinCellsCons(cells: seq<string>)
    requires cells != []
    ensures JoinCells(cells) == cells[0] + (['\t'] + JoinCells(cells[1..]))
  {
    assert cells[0] + ['\t'] + JoinCells(cells[1..]) == cells[0] + (['\t'] + JoinCells(cells[1..]));
  }

  lemma FieldsTail(cells: seq<string>)
    requires cells != [] && Fields(cells)
    ensures cells[0] != [] && NoSpace(cells[0]) && Fields(cells[1..])
  {
    assert forall k :: 0 <= k < |cells| - 1 ==> cells[1..][k] == cells[k + 1];
  }

  lemma SplitJoinCellsStep(cells: seq<string>)
    requires cells != [] && cells[0] != [] && NoSpace(cells[0])
    ensures Split(JoinCells(cells)) == [cells[0]] + Split(JoinCells(cells[1..]))
  {
    JoinCellsCons(cells);
    SplitCellThenTab(cells[0], JoinCells(cells[1..]));
  }

  /** Splitting a written data row gives back its cells, as long as no cell is
      empty or holds whitespace. */
  lemma {:induction false} SplitJoinCells(cells: seq<string>)
    requires Fields(cells)
    ensures Split(JoinCells(cells)) == cells
  {
    if cells != [] {
      FieldsTail(cells);
      SplitJoinCellsStep(cells);
      SplitJoinCells(cells[1..]);
      Seqs.HeadTail(cells);
    }
  }

  predicate IsDigit(c: char)
  {
    '0' <= c <= '9'
  }

  function DigitVal(c: char): nat
    requires IsDigit(c)
  {
    (c as int) - ('0' as int)
  }

  function DigitChar(d: nat): (c: char)
    requires d < 10
    ensures IsDigit(c) && DigitVal(c) == d
  {
    (('0' as int) + d) as char
  }

  predicate DigitOrUnderscore(s: string)
  {
    forall i :: 0 <= i < |s| ==> IsDigit(s[i]) || s[i] == '_'
  }

  /** What int() accepts after the sign: ASCII digits, with single underscores
      allowed between two digits. */
  predicate WellFormedDigits(s: string)
  {
    && |s| > 0 && IsDigit(s[0]) && IsDigit(s[|s| - 1])
    && DigitOrUnderscore(s)
    && (forall i :: 0 <= i < |s| - 1 ==> !(s[i] == '_' && s[i + 1] == '_'))
  }

  /** The decimal value of the digits of s, underscores ignored. */
  function DigitsValue(s: string): nat
    requires DigitOrUnderscore(s)
  {
    if s == [] then 0
    else if s[|s| - 1] == '_' then DigitsValue(s[..|s| - 1])
    else DigitsValue(s[..|s| - 1]) * 10 + DigitVal(s[|s| - 1])
  }

  /** int(s) for a str s: surrounding whitespace, an optional sign, then
      digits; None stands for the ValueError int() raises. */
  function ParseInt(s: string): (r: Option<int>)
    ensures r.Some? ==> exists i :: 0 <= i < |s| && IsDigit(s[i])
  {
    var t := Strip(s);
    if |t| > 0 && (t[0] == '-' || t[0] == '+') then
      if WellFormedDigits(t[1..]) then
        Some(if t[0] == '-' then -(DigitsValue(t[1..]) as int) else DigitsValue(t[1..]))
      else None
    else if WellFormedDigits(t) then Some(DigitsValue(t))
    else None
  }

  /** The decimal digits of n, without leading zeros. */
  function NatToStr(n: nat): (s: string)
    ensures |s| > 0 && IsDigit(s[0]) && IsDigit(s[|s| - 1])
    ensures forall i :: 0 <= i < |s| ==> IsDigit(s[i])
  {
    if n < 10 then [DigitChar(n)] else NatToStr(n / 10) + [DigitChar(n % 10)]
  }

  /** str() of a Python int, which is also what '%i' formats. */
  function IntToStr(n: int): (s: string)
    ensures s != [] && NoSpace(s)
  {
    if n < 0 then "-" + NatToStr(-n) else NatToStr(n)
  }

  lemma {:induction false} NatToStrValue(n: nat)
    ensures DigitOrUnderscore(NatToStr(n)) && DigitsValue(NatToStr(n)) == n
  {
    if n >= 10 {
      NatToStrValue(n / 10);
      var s := NatToStr(n);
      assert s[..|s| - 1] == NatToStr(n / 10);
    }
  }

  /** The digits str() writes for a natural number are what int() reads back. */
  lemma NatToStrParses(n: nat)
    ensures WellFormedDigits(NatToStr(n)) && DigitsValue(NatToStr(n)) == n
    ensures NatToStr(n)[0] != '-' && NatToStr(n)[0] != '+'
  {
    NatToStrValue(n);
  }

  lemma ParseIntNat(n: int)
    requires n >= 0
    ensures ParseInt(IntToStr(n)) == Some(n)
  {
    var s := NatToStr(n);
    NatToStrParses(n);
    assert Stripped(s);
  }

  lemma ParseIntNeg(n: int)
    requires n < 0
    ensures ParseInt(IntToStr(n)) == Some(n)
  {
    var s := "-" + NatToStr(-n);
    assert s[1..] == NatToStr(-n);
    NatToStrParses(-n);
    assert Stripped(s);
  }

  /** int(str(n)) == n. */
  lemma ParseIntToStr(n: int)
    ensures ParseInt(IntToStr(n)) == Some(n)
  {
    if n < 0 {
      ParseIntNeg(n);
    } else {
      ParseIntNat(n);
    }
  }

  /** Python's `a < b` on str: lexicographic by code point, with a proper
      prefix ordered first. */
  predicate StrLt(a: string, b: string)
    decreases |a|
  {
    if a == [] then b != []
    else if b == [] then false
    else if a[0] != b[0] then a[0] < b[0]
    else StrLt(a[1..], b[1..])
  }

  lemma {:induction false} StrLtIrreflexive(a: string)
    ensures !StrLt(a, a)
    decreases |a|
  {
    if a != [] {
      StrLtIrreflexive(a[1..]);
    }
  }

  lemma {:induction false} StrLtTransitive(a: string, b: string, c: string)
    requires StrLt(a, b) && StrLt(b, c)
    ensures StrLt(a, c)
    decreases |a|
  {
    if a != [] && a[0] == b[0] && b[0] == c[0] {
      StrLtTransitive(a[1..], b[1..], c[1..]);
    }
  }

  /** Any two different str values are ordered one way or the other. */
  lemma {:induction false} StrLtTotal(a: string, b: string)
    requires a != b
    ensures StrLt(a, b) || StrLt(b, a)
    decreases |a|
  {
    if a != [] && b != [] && a[0] == b[0] {
      assert a == [a[0]] + a[1..] && b == [b[0]] + b[1..];
      StrLtTotal(a[1..], b[1..]);
    }
  }

  lemma {:induction false} StrLtAsymmetric(a: string, b: string)
    requires StrLt(a, b)
    ensures !StrLt(b, a)
  {
    if StrLt(b, a) {
      StrLtTransitive(a, b, a);
      StrLtIrreflexive(a);
    }
  }

  /** Numeric tube ids are ordered as text: "10" sorts before "2". */
  lemma TextOrderOfTubeIds()
    ensures StrLt("10", "2") && !StrLt("2", "10")
  {
  }

  /** The position Python's s[i] reads in a sequence of length n: a negative i
      counts from the end; None stands for the IndexError. */
  function PyIndex(n: nat, i: int): (r: Option<nat>)
    ensures r.Some? <==> -(n as int) <= i < n
    ensures r.Some? ==> r.value < n && (if i < 0 then r.value == n + i else r.value == i)
  {
    if 0 <= i < n then Some(i) else if -(n as int) <= i < 0 then Some(n + i) else None
  }

  /** s[i] with Python's indexing rules. */
  function PyGet<T>(s: seq<T>, i: int): (r: Result<T>)
    ensures r.Ok? <==> -|s| <= i < |s|
    ensures r.Err? ==> r.error == IndexError
    ensures r.Ok? ==> r.value in s
    ensures r.Ok? ==> r.value == if i < 0 then s[|s| + i] else s[i]
  {
    match PyIndex(|s|, i)
    case Some(k) => Ok(s[k])
    case None => Err(IndexError)
  }
}
