/** The FlailySnail level-content generators (FlailySnail/content/content.py
    and FlailySnail/content/signgen.py). `signgen` writes one token per column
    of a 128-column row, `"ws"` for an obstacle column and `"air"` otherwise;
    `ginsgen` writes one door line per obstacle. Both glue their pieces with
    Python's `str.join`, modelled by `Join`; `Split` (Python's `str.split` on
    one character) is its inverse and is what the contracts speak through. */
module Content {

  /** `sep.join(parts)` for a one-character separator. */
  function Join(parts: seq<string>, sep: char): string {
    if |parts| == 0 then ""
    else if |parts| == 1 then parts[0]
    else parts[0] + [sep] + Join(parts[1..], sep)
  }

  /** `s.split(c)`: the pieces between occurrences of `c`; never empty. */
  function Split(s: string, c: char): (r: seq<string>)
    ensures |r| >= 1
    decreases |s|
  {
    if |s| == 0 then [""]
    else
      var rest := Split(s[1..], c);
      if s[0] == c then [""] + rest
      else [[s[0]] + rest[0]] + rest[1..]
  }

  /** A prefix without the separator glues onto the first piece of what follows. */
  lemma {:induction false} SplitNoSep(a: string, t: string, c: char)
    requires c !in a
    ensures Split(a + t, c) == [a + Split(t, c)[0]] + Split(t, c)[1..]
    decreases |a|
  {
    if |a| == 0 {
      assert a + t == t;
      assert a + Split(t, c)[0] == Split(t, c)[0];
      assert [Split(t, c)[0]] + Split(t, c)[1..] == Split(t, c);
    } else {
      assert (a + t)[0] == a[0];
      assert (a + t)[1..] == a[1..] + t;
      SplitNoSep(a[1..], t, c);
      assert [a[0]] + (a[1..] + Split(t, c)[0]) == a + Split(t, c)[0];
    }
  }

  /** Splitting a join on its separator gives the parts back, as long as no
      part contains the separator and there is at least one part. */
  lemma {:induction false} SplitJoin(parts: seq<string>, c: char)
    requires |parts| >= 1
    requires forall k :: 0 <= k < |parts| ==> c !in parts[k]
    ensures Split(Join(parts, c), c) == parts
    decreases |parts|
  {
    if |parts| == 1 {
      SplitNoSep(parts[0], "", c);
      assert parts[0] + "" == parts[0];
    } else {
      var j := Join(parts[1..], c);
      assert Join(parts, c) == parts[0] + ([c] + j);
      SplitNoSep(parts[0], [c] + j, c);
      assert ([c] + j)[0] == c && ([c] + j)[1..] == j;
      assert Split([c] + j, c) == [""] + Split(j, c);
      SplitJoin(parts[1..], c);
      assert parts[0] + "" == parts[0];
      assert parts == [parts[0]] + parts[1..];
    }
  }

  // ---------------------------------------------------------------------------
  // signgen

  /** The token for one column. */
  function Token(ws: bool): (t: string)
    ensures ' ' !in t && '\n' !in t && |t| >= 2
  {
    if ws then "ws" else "air"
  }

  /** `signgen(lst)` of content.py: column `i` of `range(0, 128)` is `"ws"`
      when `i in lst`, `"air"` otherwise, joined by single spaces. */
  function SignGen(lst: seq<int>): (r: string)
    ensures |Split(r, ' ')| == 128
    ensures forall i :: 0 <= i < 128 ==> (Split(r, ' ')[i] == "ws" <==> i in lst)
    ensures forall i :: 0 <= i < 128 ==> (Split(r, ' ')[i] == "air" <==> i !in lst)
  {
    var tokens := seq(128, i => Token(i in lst));
    SplitJoin(tokens, ' ');
    Join(tokens, ' ')
  }

  /** Only which of the values `0..127` occur matters: two lists give the same
      row exactly when they agree on the membership of every column. */
  lemma SignGenMembership(a: seq<int>, b: seq<int>)
    ensures SignGen(a) == SignGen(b) <==> forall i :: 0 <= i < 128 ==> (i in a <==> i in b)
  {
    if forall i :: 0 <= i < 128 ==> (i in a <==> i in b) {
      assert seq(128, i => Token(i in a)) == seq(128, i => Token(i in b));
    }
  }

  /** Repeating a value, reordering it away or listing a value outside the
      row adds nothing: such an extra element never changes the output. */
  lemma SignGenExtraValue(lst: seq<int>, x: int)
    requires x in lst || x < 0 || x >= 128
    ensures SignGen(lst + [x]) == SignGen(lst)
    ensures SignGen([x] + lst) == SignGen(lst)
  {
    SignGenMembership(lst + [x], lst);
    SignGenMembership([x] + lst, lst);
  }

  /** `signgen(obstacles)` of signgen.py, whose argument is meant to be a set
      of columns. */
  function SignGenSet(obstacles: set<int>): (r: string)
    ensures |Split(r, ' ')| == 128
    ensures forall i :: 0 <= i < 128 ==> (Split(r, ' ')[i] == "ws" <==> i in obstacles)
    ensures forall i :: 0 <= i < 128 ==> (Split(r, ' ')[i] == "air" <==> i !in obstacles)
  {
    var tokens := seq(128, i => Token(i in obstacles));
    SplitJoin(tokens, ' ');
    Join(tokens, ' ')
  }

  /** The two files' `signgen` agree: the list version is the set version on
      the list's values. */
  lemma SignGenAgree(lst: seq<int>)
    ensures SignGenSet(set x | x in lst) == SignGen(lst)
  {
    var s := set x | x in lst;
    assert seq(128, i => Token(i in s)) == seq(128, i => Token(i in lst));
  }

  // ---------------------------------------------------------------------------
  // ginsgen

  function DigitChar(d: nat): (c: char)
    requires d < 10
    ensures '0' <= c <= '9'
  {
    "0123456789"[d]
  }

  /** The decimal digits of `n`, most significant first, without leading zeros. */
  function NatDigits(n: nat): (s: string)
    ensures |s| >= 1 && forall k :: 0 <= k < |s| ==> '0' <= s[k] <= '9'
  {
    if n < 10 then [DigitChar(n)] else NatDigits(n / 10) + [DigitChar(n % 10)]
  }

  /** The number a string of decimal digits denotes. */
  function DigitsValue(s: string): nat
    requires forall k :: 0 <= k < |s| ==> '0' <= s[k] <= '9'
  {
    if |s| == 0 then 0
    else DigitsValue(s[..|s| - 1]) * 10 + ((s[|s| - 1] as int) - ('0' as int))
  }

  lemma DigitCharValue(d: nat)
    requires d < 10
    ensures (DigitChar(d) as int) - ('0' as int) == d
  {
  }

  /** Reading back the digits of `n` gives `n`. */
  lemma {:induction false} NatDigitsRoundTrip(n: nat)
    ensures DigitsValue(NatDigits(n)) == n
  {
    DigitCharValue(n % 10);
    if n >= 10 {
      var s := NatDigits(n);
      assert s[..|s| - 1] == NatDigits(n / 10);
      NatDigitsRoundTrip(n / 10);
    } else {
      assert NatDigits(n)[..0] == [];
    }
  }

  /** `str(n)`: a minus sign for negative numbers, then the digits. */
  function IntToStr(n: int): (s: string)
    ensures ' ' !in s && '\n' !in s && |s| >= 1
    ensures s[0] == '-' <==> n < 0
  {
    if n < 0 then "-" + NatDigits(-n) else NatDigits(n)
  }

  lemma NatDigitsInjective(m: nat, n: nat)
    requires NatDigits(m) == NatDigits(n)
    ensures m == n
  {
    NatDigitsRoundTrip(m);
    NatDigitsRoundTrip(n);
  }

  /** Different numbers are written differently. */
  lemma IntToStrInjective(a: int, b: int)
    requires IntToStr(a) == IntToStr(b)
    ensures a == b
  {
    var s := IntToStr(a);
    if a < 0 {
      assert b < 0;
      assert s == "-" + NatDigits(-a) == "-" + NatDigits(-b);
      assert NatDigits(-a) == s[1..] == NatDigits(-b);
      NatDigitsInjective(-a, -b);
    } else {
      assert b >= 0;
      NatDigitsInjective(a, b);
    }
  }

  const DOOR_PREFIX: string := "door level1 2 7 "
  const DOOR_SUFFIX: string := " 8"

  /** `f"door level1 2 7 {i} 8"`: the fixed text `door level1 2 7 `, the
      decimal form of `i`, then ` 8`. */
  function DoorLine(i: int): (line: string)
    ensures '\n' !in line
    ensures |line| == |DOOR_PREFIX| + |IntToStr(i)| + |DOOR_SUFFIX|
    ensures line[..|DOOR_PREFIX|] == DOOR_PREFIX && line[|line| - |DOOR_SUFFIX|..] == DOOR_SUFFIX
    ensures line[|DOOR_PREFIX|..|line| - |DOOR_SUFFIX|] == IntToStr(i)
  {
    DOOR_PREFIX + IntToStr(i) + DOOR_SUFFIX
  }

  /** A door line names its number unambiguously. */
  lemma DoorLineInjective(a: int, b: int)
    requires DoorLine(a) == DoorLine(b)
    ensures a == b
  {
    var l := DoorLine(a);
    assert IntToStr(a) == l[|DOOR_PREFIX|..|l| - |DOOR_SUFFIX|] == IntToStr(b);
    IntToStrInjective(a, b);
  }

  /** `ginsgen(lst)`: one door line per element of `lst`, in order, joined by
      newlines; the empty list gives the empty string. */
  function GinsGen(lst: seq<int>): (r: string)
    ensures |lst| == 0 <==> r == ""
    ensures |lst| > 0 ==> |Split(r, '\n')| == |lst|
    ensures |lst| > 0 ==> forall k :: 0 <= k < |lst| ==> Split(r, '\n')[k] == DoorLine(lst[k])
  {
    var lines := seq(|lst|, k requires 0 <= k < |lst| => DoorLine(lst[k]));
    if |lst| == 0 then ""
    else
      SplitJoin(lines, '\n');
      assert |lines[0]| > 0;
      assert |Join(lines, '\n')| > 0 by {
        if |lines| > 1 {
          assert |Join(lines, '\n')| >= |lines[0]|;
        }
      }
      Join(lines, '\n')
  }

  /** The generated text determines the list: length, order and duplicates
      included. */
  lemma GinsGenInjective(a: seq<int>, b: seq<int>)
    requires GinsGen(a) == GinsGen(b)
    ensures a == b
  {
    var r := GinsGen(a);
    if |a| > 0 {
      assert |b| > 0;
      forall k | 0 <= k < |a|
        ensures a[k] == b[k]
      {
        DoorLineInjective(a[k], b[k]);
      }
    }
  }
}
