/**
 Text helpers shared by the components: white space, splitting and joining, letter case, the
 byte order of strings, and decimal numbers.  Characters stand for bytes; letter case and white
 space are those of ASCII.
 */
module Text {

  datatype Option<+T> = None | Some(value: T)

  // ----- white space -----

  predicate IsSpace(c: char)
    ensures IsSpace(c) <==> c as int == 32 || 9 <= c as int <= 13
  {
    c == ' ' || c == '\t' || c == '\n' || c == '\r' || c == '\U{000B}' || c == '\U{000C}'
  }

  ghost predicate AllSpace(s: string) {
    forall i :: 0 <= i < |s| ==> IsSpace(s[i])
  }

  function TrimLeft(s: string): (r: string) {
    if s != [] && IsSpace(s[0]) then TrimLeft(s[1..]) else s
  }

  function TrimRight(s: string): (r: string) {
    if s != [] && IsSpace(s[|s| - 1]) then TrimRight(s[..|s| - 1]) else s
  }

  lemma {:induction false} TrimLeftParts(s: string)
    ensures var r := TrimLeft(s);
      |r| <= |s| && r == s[|s| - |r|..] && (r != [] ==> !IsSpace(r[0])) && AllSpace(s[..|s| - |r|])
  {
    if s != [] && IsSpace(s[0]) {
      TrimLeftParts(s[1..]);
      var r := TrimLeft(s);
      assert s[..|s| - |r|] == [s[0]] + s[1..][..|s| - 1 - |r|];
    }
  }

  lemma {:induction false} TrimRightParts(s: string)
    ensures var r := TrimRight(s);
      |r| <= |s| && r == s[..|r|] && (r != [] ==> !IsSpace(r[|r| - 1])) && AllSpace(s[|r|..])
  {
    if s != [] && IsSpace(s[|s| - 1]) {
      var n := |s| - 1;
      TrimRightParts(s[..n]);
      var r := TrimRight(s);
      assert s[|r|..] == s[..n][|r|..] + [s[n]];
    }
  }

  function Trim(s: string): (r: string) {
    TrimRight(TrimLeft(s))
  }

  /** Text that trimming leaves alone. */
  predicate Trimmed(s: string) {
    s == [] || (!IsSpace(s[0]) && !IsSpace(s[|s| - 1]))
  }

  /** Trimming removes white space at both ends and nothing else. */
  lemma TrimParts(s: string) returns (left: string, right: string)
    ensures s == left + Trim(s) + right
    ensures AllSpace(left) && AllSpace(right) && Trimmed(Trim(s))
    ensures |Trim(s)| <= |s|
  {
    hide TrimLeft, TrimRight;
    var t := TrimLeft(s);
    var u := TrimRight(t);
    TrimLeftParts(s);
    TrimRightParts(t);
    left, right := s[..|s| - |t|], t[|u|..];
    assert u != [] ==> u[0] == t[0];
    assert t == u + right && s == left + t;
  }

  lemma {:induction false} TrimRightUnique(s: string, right: string)
    requires AllSpace(right) && (s == [] || !IsSpace(s[|s| - 1]))
    ensures TrimRight(s + right) == s
    decreases |right|
  {
    if right == [] {
      assert s + right == s;
    } else {
      var t := s + right;
      assert t[..|t| - 1] == s + right[..|right| - 1];
      TrimRightUnique(s, right[..|right| - 1]);
    }
  }

  lemma {:induction false} TrimLeftUnique(left: string, s: string)
    requires AllSpace(left) && (s == [] || !IsSpace(s[0]))
    ensures TrimLeft(left + s) == s
    decreases |left|
  {
    if left == [] {
      assert left + s == s;
    } else {
      assert (left + s)[1..] == left[1..] + s;
      TrimLeftUnique(left[1..], s);
    }
  }

  /** A trimmed text is found again under any padding. */
  lemma TrimUnique(left: string, s: string, right: string)
    requires AllSpace(left) && AllSpace(right) && Trimmed(s)
    ensures Trim(left + s + right) == s
  {
    if s == [] {
      var pad := left + right;
      assert left + s + right == pad + [] && AllSpace(pad);
      TrimLeftUnique(pad, []);
    } else {
      assert left + s + right == left + (s + right);
      TrimLeftUnique(left, s + right);
      TrimRightUnique(s, right);
    }
  }

  lemma TrimOfTrimmed(s: string)
    ensures Trim(s) == s <==> Trimmed(s)
    ensures Trimmed(Trim(s))
  {
    var _, _ := TrimParts(s);
    if Trimmed(s) {
      assert [] + s + [] == s;
      TrimUnique([], s, []);
    }
  }

  lemma BlankIffAllSpace(s: string)
    ensures Trim(s) == [] <==> AllSpace(s)
  {
    var left, right := TrimParts(s);
    if AllSpace(s) {
      TrimUnique(s, [], []);
      assert s + [] + [] == s;
    }
  }

  /** Appending leaves the trimmed text alone exactly when only white space is appended. */
  lemma TrimExtends(s: string, w: string)
    requires Trim(s) != []
    ensures Trim(s + w) == Trim(s) <==> AllSpace(w)
  {
    hide TrimLeft, TrimRight, Trim;
    var left, right := TrimParts(s);
    var mid, tail := TrimParts(w);
    BlankIffAllSpace(w);
    if AllSpace(w) {
      assert AllSpace(right + w);
      assert s + w == left + Trim(s) + (right + w);
      TrimUnique(left, Trim(s), right + w);
    } else {
      var core := Trim(s) + (right + mid) + Trim(w);
      assert core[0] == Trim(s)[0] && core[|core| - 1] == Trim(w)[|Trim(w)| - 1];
      assert s + w == left + core + tail;
      TrimUnique(left, core, tail);
    }
  }

  // ----- splitting and joining -----

  /** Cuts at every separator, as the pieces between them; the empty text is one empty piece. */
  function Split(s: string, sep: char): (r: seq<string>)
    ensures |r| >= 1
  {
    if s == [] then [[]] else
      var rest := Split(s[1..], sep);
      if s[0] == sep then [[]] + rest else [[s[0]] + rest[0]] + rest[1..]
  }

  function Join(parts: seq<string>, sep: char): (r: string) {
    if parts == [] then [] else if |parts| == 1 then parts[0] else parts[0] + [sep] + Join(parts[1..], sep)
  }

  ghost predicate Without(s: string, c: char) {
    forall i :: 0 <= i < |s| ==> s[i] != c
  }

  ghost predicate EachWithout(parts: seq<string>, c: char) {
    forall k :: 0 <= k < |parts| ==> Without(parts[k], c)
  }

  lemma JoinCons(x: string, parts: seq<string>, sep: char)
    requires parts != []
    ensures Join([x] + parts, sep) == x + [sep] + Join(parts, sep)
  {
    assert ([x] + parts)[1..] == parts;
  }

  /** Splitting loses nothing, and no piece holds the separator. */
  lemma {:induction false} JoinOfSplit(s: string, sep: char)
    ensures Join(Split(s, sep), sep) == s
    ensures EachWithout(Split(s, sep), sep)
  {
    if s == [] {
    } else {
      var rest := Split(s[1..], sep);
      JoinOfSplit(s[1..], sep);
      if s[0] == sep {
        JoinCons([], rest, sep);
        assert s == [] + [sep] + s[1..];
      } else if |rest| == 1 {
        assert s == [s[0]] + s[1..];
        assert Split(s, sep) == [[s[0]] + rest[0]];
      } else {
        assert rest == [rest[0]] + rest[1..];
        JoinCons(rest[0], rest[1..], sep);
        JoinCons([s[0]] + rest[0], rest[1..], sep);
        assert s == [s[0]] + (rest[0] + [sep] + Join(rest[1..], sep));
        assert s == ([s[0]] + rest[0]) + [sep] + Join(rest[1..], sep);
      }
    }
  }

  lemma {:induction false} SplitAtFirst(x: string, s: string, sep: char)
    requires Without(x, sep)
    ensures Split(x + [sep] + s, sep) == [x] + Split(s, sep)
  {
    var t := x + [sep] + s;
    if x == [] {
      assert t[1..] == s;
    } else {
      assert t[1..] == x[1..] + [sep] + s;
      SplitAtFirst(x[1..], s, sep);
      assert [x[0]] + x[1..] == x;
    }
  }

  lemma {:induction false} SplitWhole(x: string, sep: char)
    requires Without(x, sep)
    ensures Split(x, sep) == [x]
  {
    if x != [] {
      SplitWhole(x[1..], sep);
      assert [x[0]] + x[1..] == x;
    }
  }

  /** Pieces without the separator survive joining and splitting. */
  lemma {:induction false} SplitOfJoin(parts: seq<string>, sep: char)
    requires parts != [] && EachWithout(parts, sep)
    ensures Split(Join(parts, sep), sep) == parts
  {
    assert Without(parts[0], sep);
    if |parts| == 1 {
      SplitWhole(parts[0], sep);
    } else {
      assert EachWithout(parts[1..], sep);
      SplitOfJoin(parts[1..], sep);
      SplitAtFirst(parts[0], Join(parts[1..], sep), sep);
      assert parts == [parts[0]] + parts[1..];
    }
  }

  /** A newline after every line. */
  function Terminated(lines: seq<string>): (r: string) {
    if lines == [] then [] else lines[0] + "\n" + Terminated(lines[1..])
  }

  lemma {:induction false} SplitOfTerminated(lines: seq<string>)
    requires EachWithout(lines, '\n')
    ensures Split(Terminated(lines), '\n') == lines + [[]]
  {
    if lines == [] {
      assert lines + [[]] == [[]];
    } else {
      assert Without(lines[0], '\n') && EachWithout(lines[1..], '\n');
      SplitOfTerminated(lines[1..]);
      SplitAtFirst(lines[0], Terminated(lines[1..]), '\n');
      assert lines + [[]] == [lines[0]] + (lines[1..] + [[]]);
    }
  }

  lemma {:induction false} TerminatedConcat(a: seq<string>, b: seq<string>)
    ensures Terminated(a + b) == Terminated(a) + Terminated(b)
  {
    if a == [] {
      assert a + b == b;
    } else {
      assert (a + b)[1..] == a[1..] + b;
      TerminatedConcat(a[1..], b);
    }
  }

  // ----- prefixes, case and order -----

  predicate HasPrefix(s: string, p: string) {
    |p| <= |s| && s[..|p|] == p
  }

  predicate HasSuffix(s: string, p: string) {
    |p| <= |s| && s[|s| - |p|..] == p
  }

  function LowerChar(c: char): (r: char) {
    if 'A' <= c <= 'Z' then (c as int + 32) as char else c
  }

  function ToLower(s: string): (r: string)
    ensures |r| == |s| && forall i :: 0 <= i < |s| ==> r[i] == LowerChar(s[i])
  {
    seq(|s|, i requires 0 <= i < |s| => LowerChar(s[i]))
  }

  /** The same letter in either case, or the same other character. */
  ghost predicate SameLetter(a: char, b: char) {
    a == b || ('a' <= a <= 'z' && a as int == b as int + 32) || ('a' <= b <= 'z' && b as int == a as int + 32)
  }

  /** The same text up to the case of the letters A to Z. */
  ghost predicate SameLetters(a: string, b: string) {
    |a| == |b| && forall i :: 0 <= i < |a| ==> SameLetter(a[i], b[i])
  }

  /** Lower case compares texts up to their letter case. */
  lemma LowerIff(a: string, b: string)
    ensures ToLower(a) == ToLower(b) <==> SameLetters(a, b)
  {
    if ToLower(a) == ToLower(b) {
      forall i | 0 <= i < |a|
        ensures SameLetter(a[i], b[i])
      {
        assert ToLower(a)[i] == ToLower(b)[i];
      }
    }
    if SameLetters(a, b) {
      assert forall i :: 0 <= i < |a| ==> ToLower(a)[i] == ToLower(b)[i];
    }
  }

  /** A text without capitals is its own lower case. */
  lemma LowerWord(a: string, w: string)
    requires forall i :: 0 <= i < |w| ==> !('A' <= w[i] <= 'Z')
    ensures ToLower(a) == w <==> SameLetters(a, w)
  {
    assert ToLower(w) == w;
    LowerIff(a, w);
  }

  /** Byte-wise lexicographic order. */
  predicate Less(a: string, b: string) {
    if b == [] then false
    else if a == [] then true
    else a[0] < b[0] || (a[0] == b[0] && Less(a[1..], b[1..]))
  }

  /** Equal up to n, where a ends or has the smaller byte. */
  ghost predicate DiffersAt(a: string, b: string, n: int) {
    0 <= n <= |a| && n < |b| && a[..n] == b[..n] && (n == |a| || a[n] < b[n])
  }

  lemma {:induction false} LessAt(a: string, b: string, n: int)
    requires DiffersAt(a, b, n)
    ensures Less(a, b)
  {
    if n > 0 {
      assert a[0] == a[..n][0] == b[..n][0] == b[0];
      assert a[1..][..n - 1] == a[..n][1..] == b[..n][1..] == b[1..][..n - 1];
      LessAt(a[1..], b[1..], n - 1);
    }
  }

  lemma {:induction false} LessDiffers(a: string, b: string) returns (n: int)
    requires Less(a, b)
    ensures DiffersAt(a, b, n)
  {
    if a == [] || a[0] < b[0] {
      n := 0;
    } else {
      var m := LessDiffers(a[1..], b[1..]);
      n := m + 1;
      assert a[..n] == [a[0]] + a[1..][..m] && b[..n] == [b[0]] + b[1..][..m];
    }
  }

  /** At the first difference the smaller byte, or nothing at all, comes first. */
  lemma LessIff(a: string, b: string)
    ensures Less(a, b) <==> exists n :: DiffersAt(a, b, n)
  {
    hide Less, DiffersAt;
    if Less(a, b) {
      var n := LessDiffers(a, b);
    }
    if n :| DiffersAt(a, b, n) {
      LessAt(a, b, n);
    }
  }

  lemma {:induction false} LessIsStrictTotal(a: string, b: string)
    ensures !(Less(a, b) && Less(b, a))
    ensures Less(a, b) || Less(b, a) || a == b
    ensures a == b ==> !Less(a, b)
  {
    if a != [] && b != [] {
      LessIsStrictTotal(a[1..], b[1..]);
      assert a == [a[0]] + a[1..] && b == [b[0]] + b[1..];
    }
  }

  lemma {:induction false} LessTransitive(a: string, b: string, c: string)
    requires Less(a, b) && Less(b, c)
    ensures Less(a, c)
  {
    if a != [] && a[0] == b[0] == c[0] {
      LessTransitive(a[1..], b[1..], c[1..]);
    }
  }

  lemma NotLessTransitive(a: string, b: string, c: string)
    requires !Less(b, a) && !Less(c, b)
    ensures !Less(c, a)
  {
    hide Less;
    LessIsStrictTotal(a, b);
    LessIsStrictTotal(b, c);
    LessIsStrictTotal(a, c);
    if Less(c, a) && a != b && b != c {
      LessTransitive(a, b, c);
    }
  }

  predicate IsLeast(k: string, keys: set<string>) {
    k in keys && forall x :: x in keys ==> x == k || Less(k, x)
  }

  lemma {:induction false} LeastExists(keys: set<string>)
    requires keys != {}
    ensures exists k :: IsLeast(k, keys)
  {
    hide Less;
    var x :| x in keys;
    var rest := keys - {x};
    assert forall y :: y in keys ==> y == x || y in rest;
    if rest == {} {
      assert IsLeast(x, keys);
    } else {
      LeastExists(rest);
      var k :| IsLeast(k, rest);
      LessIsStrictTotal(x, k);
      if Less(k, x) {
        assert IsLeast(k, keys);
      } else {
        forall y | y in keys && y != x
          ensures Less(x, y)
        {
          if y != k {
            LessTransitive(x, k, y);
          }
        }
        assert IsLeast(x, keys);
      }
    }
  }

  lemma LeastIsUnique(j: string, k: string, keys: set<string>)
    requires IsLeast(j, keys) && IsLeast(k, keys)
    ensures j == k
  {
    hide Less;
    LessIsStrictTotal(j, k);
  }

  function Least(keys: set<string>): (k: string)
    requires keys != {}
    ensures IsLeast(k, keys)
  {
    LeastExists(keys);
    assert forall i, j :: IsLeast(i, keys) && IsLeast(j, keys) ==> i == j by {
      forall i, j | IsLeast(i, keys) && IsLeast(j, keys)
        ensures i == j
      {
        LeastIsUnique(i, j, keys);
      }
    }
    var k :| IsLeast(k, keys);
    k
  }

  /** The members of a set in increasing order. */
  function SortedKeys(keys: set<string>): (r: seq<string>)
    ensures forall k :: k in r <==> k in keys
    ensures forall i, j :: 0 <= i < j < |r| ==> Less(r[i], r[j])
    ensures |r| == |keys|
  {
    if keys == {} then [] else
      var k := Least(keys);
      [k] + SortedKeys(keys - {k})
  }

  // ----- decimal numbers -----

  predicate IsDigit(c: char) { '0' <= c <= '9' }

  function DigitChar(d: nat): (c: char)
    requires d < 10
    ensures IsDigit(c) && c as int - '0' as int == d
  {
    ('0' as int + d) as char
  }

  function Digits(n: nat): (s: string)
    ensures s != [] && forall i :: 0 <= i < |s| ==> IsDigit(s[i])
  {
    if n < 10 then [DigitChar(n)] else Digits(n / 10) + [DigitChar(n % 10)]
  }

  function ParseDigits(s: string): (r: Option<nat>) {
    if s == [] || !IsDigit(s[|s| - 1]) then None
    else
      var d := s[|s| - 1] as int - '0' as int;
      if |s| == 1 then Some(d) else
        match ParseDigits(s[..|s| - 1])
        case None => None
        case Some(n) => Some(n * 10 + d)
  }

  lemma {:induction false} ParseOfDigits(n: nat)
    ensures ParseDigits(Digits(n)) == Some(n)
  {
    if n >= 10 {
      var s := Digits(n);
      ParseOfDigits(n / 10);
      assert s[..|s| - 1] == Digits(n / 10);
    }
  }

  const MIN_INT: int := -0x8000_0000_0000_0000
  const MAX_INT: int := 0x7fff_ffff_ffff_ffff

  function Itoa(n: int): (s: string)
    ensures s != []
  {
    if n < 0 then "-" + Digits(-n) else Digits(n)
  }

  /** A decimal with an optional sign. */
  function ParseInt(s: string): (r: Option<int>) {
    var neg := s != [] && s[0] == '-';
    var body := if s != [] && (s[0] == '-' || s[0] == '+') then s[1..] else s;
    match ParseDigits(body)
    case None => None
    case Some(m) => Some(if neg then -(m as int) else m as int)
  }

  lemma ParseOfItoa(n: int)
    ensures ParseInt(Itoa(n)) == Some(n)
  {
    ParseOfDigits(if n < 0 then -n else n);
    if n < 0 {
      assert Itoa(n)[1..] == Digits(-n);
    }
  }

  /** A decimal that fits 64 signed bits; anything else is refused. */
  function Atoi(s: string): (r: Option<int>)
    ensures r.Some? ==> MIN_INT <= r.value <= MAX_INT
  {
    match ParseInt(s)
    case Some(n) => if MIN_INT <= n <= MAX_INT then Some(n) else None
    case None => None
  }

  /** What the library returns beside its error: the nearest number it can hold, or zero. */
  function AtoiValue(s: string): (n: int)
    ensures MIN_INT <= n <= MAX_INT
    ensures Atoi(s).Some? ==> n == Atoi(s).value
    ensures ParseInt(s).None? ==> n == 0
  {
    match ParseInt(s)
    case None => 0
    case Some(n) => if n < MIN_INT then MIN_INT else if n > MAX_INT then MAX_INT else n
  }

  /** The characters of a printed number. */
  lemma ItoaIsPlain(n: int)
    ensures forall i :: 0 <= i < |Itoa(n)| ==> IsDigit(Itoa(n)[i]) || Itoa(n)[i] == '-'
  {
  }
}
