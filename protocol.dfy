/** The text layer both bots share: a line cut at a delimiter the way repeated
    `std::getline` calls cut a string stream, and `std::stoi`'s reading of a decimal
    integer. Both generations' `split` have the same body, so both use `Split`. */
module Protocol {
  import opened Common

  // ---------------------------------------------------------------------------------
  // Splitting

  /** Where the piece that starts at `i` ends: the first delimiter at or after `i`, or
      the end of the text. */
  function PieceEnd(s: string, i: int, delim: char): (e: int)
    requires 0 <= i <= |s|
    ensures i <= e <= |s|
    ensures e < |s| ==> s[e] == delim
    decreases |s| - i
  {
    if i == |s| || s[i] == delim then i else PieceEnd(s, i + 1, delim)
  }

  /** No delimiter comes before the end of a piece. */
  lemma {:induction false} PieceEndIsFirst(s: string, i: int, delim: char)
    requires 0 <= i <= |s|
    ensures forall j | i <= j < PieceEnd(s, i, delim) :: s[j] != delim
    decreases |s| - i
  {
    if i < |s| && s[i] != delim {
      PieceEndIsFirst(s, i + 1, delim);
    }
  }

  /** The pieces repeated `getline` calls read from position `pos` on: one per
      delimiter-terminated run and one for a non-empty remainder after the last
      delimiter; nothing once the text is used up. */
  function PiecesFrom(s: string, pos: int, delim: char): (r: seq<string>)
    requires 0 <= pos
    ensures pos < |s| <==> |r| > 0
    decreases |s| - pos
  {
    if pos >= |s| then []
    else
      var e := PieceEnd(s, pos, delim);
      [s[pos..e]] + PiecesFrom(s, e + 1, delim)
  }

  /** No piece holds the delimiter, and each is the text between two consecutive
      delimiters (or the text's ends). */
  lemma {:induction false} PiecesFromAreRuns(s: string, pos: int, delim: char)
    requires 0 <= pos
    ensures forall j | 0 <= j < |PiecesFrom(s, pos, delim)| :: delim !in PiecesFrom(s, pos, delim)[j]
    decreases |s| - pos
  {
    if pos < |s| {
      var e := PieceEnd(s, pos, delim);
      PiecesFromAreRuns(s, e + 1, delim);
      PieceEndIsFirst(s, pos, delim);
      assert delim !in s[pos..e];
    }
  }

  /** What `split` returns for the whole text. */
  function Pieces(s: string, delim: char): seq<string> {
    PiecesFrom(s, 0, delim)
  }

  /** The pieces put back together with one delimiter between neighbours. */
  function Join(pieces: seq<string>, delim: char): string
  {
    if |pieces| == 0 then []
    else if |pieces| == 1 then pieces[0]
    else pieces[0] + [delim] + Join(pieces[1..], delim)
  }

  /** The text with one trailing delimiter dropped, when it ends in one. */
  function Trimmed(s: string, delim: char): string {
    if |s| > 0 && s[|s| - 1] == delim then s[..|s| - 1] else s
  }

  /** Joining the pieces read from `pos` on gives back the rest of the text, less one
      trailing delimiter. */
  lemma {:induction false} JoinPiecesFrom(s: string, pos: int, delim: char)
    requires 0 <= pos <= |s|
    ensures Join(PiecesFrom(s, pos, delim), delim) == Trimmed(s[pos..], delim)
    decreases |s| - pos
  {
    if pos < |s| {
      var e := PieceEnd(s, pos, delim);
      if e + 1 >= |s| {
        LastPiece(s, pos, delim);
      } else {
        JoinPiecesFrom(s, e + 1, delim);
        MorePieces(s, pos, delim);
      }
    }
  }

  /** A piece followed by more pieces: JoinPiecesFrom at `pos` from its instance after
      the piece's delimiter. */
  lemma MorePieces(s: string, pos: int, delim: char)
    requires 0 <= pos < |s| && PieceEnd(s, pos, delim) + 1 < |s|
    requires var e := PieceEnd(s, pos, delim);
      Join(PiecesFrom(s, e + 1, delim), delim) == Trimmed(s[e + 1..], delim)
    ensures Join(PiecesFrom(s, pos, delim), delim) == Trimmed(s[pos..], delim)
  {
    var e := PieceEnd(s, pos, delim);
    var rest := PiecesFrom(s, e + 1, delim);
    PiecesFromCons(s, pos, delim);
    SliceAround(s, pos, e, delim);
    JoinStep(s[pos..e], rest, s[e + 1..], s[pos..], delim);
  }

  /** The first piece read from `pos` on, followed by the pieces after its delimiter. */
  lemma PiecesFromCons(s: string, pos: int, delim: char)
    requires 0 <= pos < |s|
    ensures var e := PieceEnd(s, pos, delim);
      PiecesFrom(s, pos, delim) == [s[pos..e]] + PiecesFrom(s, e + 1, delim)
  {
  }

  /** A suffix is its part before position `e`, the element `d` at `e` and the rest. */
  lemma SliceAround<T>(s: seq<T>, i: int, e: int, d: T)
    requires 0 <= i <= e < |s| && s[e] == d
    ensures s[i..] == s[i..e] + [d] + s[e + 1..]
  {
  }

  /** One piece more on each side of JoinPiecesFrom. */
  lemma JoinStep(x: string, rest: seq<string>, t: string, whole: string, delim: char)
    requires |rest| > 0 && |t| > 0
    requires Join(rest, delim) == Trimmed(t, delim) && whole == x + [delim] + t
    ensures Join([x] + rest, delim) == Trimmed(whole, delim)
  {
    JoinCons(x, rest, delim);
    TrimmedAfter(x, t, delim);
  }

  /** Joining a piece in front of other pieces puts a delimiter between. */
  lemma JoinCons(x: string, rest: seq<string>, delim: char)
    requires |rest| > 0
    ensures Join([x] + rest, delim) == x + [delim] + Join(rest, delim)
  {
    assert ([x] + rest)[1..] == rest;
  }

  /** The last piece is the rest of the text, less a trailing delimiter. */
  lemma LastPiece(s: string, pos: int, delim: char)
    requires 0 <= pos < |s| && PieceEnd(s, pos, delim) + 1 >= |s|
    ensures Join(PiecesFrom(s, pos, delim), delim) == Trimmed(s[pos..], delim)
  {
    var e := PieceEnd(s, pos, delim);
    var r := s[pos..];
    PiecesFromAt(s, pos, e, e + 1, delim);
    if e == |s| {
      PieceEndIsFirst(s, pos, delim);
      assert r[|r| - 1] == s[|s| - 1] != delim;
      assert r == s[pos..e];
    } else {
      assert r[..|r| - 1] == s[pos..e];
    }
  }

  /** Dropping a trailing delimiter only touches the last piece. */
  lemma TrimmedAfter(a: string, t: string, delim: char)
    requires |t| > 0
    ensures Trimmed(a + [delim] + t, delim) == a + [delim] + Trimmed(t, delim)
  {
    var r := a + [delim] + t;
    assert r[|r| - 1] == t[|t| - 1];
    if t[|t| - 1] == delim {
      assert r[..|r| - 1] == a + [delim] + t[..|t| - 1];
    }
  }

  /** Joining the pieces of a text gives it back, less one trailing delimiter. */
  lemma JoinPieces(s: string, delim: char)
    ensures Join(Pieces(s, delim), delim) == Trimmed(s, delim)
  {
    JoinPiecesFrom(s, 0, delim);
    assert s[0..] == s;
  }

  /** The first piece read from `pos` on, ending at `e`, followed by the pieces after
      its delimiter. */
  lemma PiecesFromAt(s: string, pos: int, e: int, next: int, delim: char)
    requires 0 <= pos < |s| && e == PieceEnd(s, pos, delim) && next == e + 1
    ensures PiecesFrom(s, pos, delim) == [s[pos..e]] + PiecesFrom(s, next, delim)
  {
  }

  /** A piece without the delimiter ends where the text does or at the delimiter after it. */
  lemma {:induction false} PieceEndAt(s: string, i: int, e: int, delim: char)
    requires 0 <= i <= e <= |s|
    requires forall j | i <= j < e :: s[j] != delim
    requires e == |s| || s[e] == delim
    ensures PieceEnd(s, i, delim) == e
    decreases e - i
  {
    if i < e {
      PieceEndAt(s, i + 1, e, delim);
    }
  }

  /** Splitting a join gives the pieces back when none holds the delimiter and the last
      is not empty (an empty last piece leaves only a trailing delimiter, which reads as
      no piece). */
  lemma PiecesOfJoin(pieces: seq<string>, delim: char)
    requires forall j | 0 <= j < |pieces| :: delim !in pieces[j]
    requires pieces != [] ==> pieces[|pieces| - 1] != []
    ensures Pieces(Join(pieces, delim), delim) == pieces
  {
    var s := Join(pieces, delim);
    assert s[0..] == s;
    PiecesFromJoin(s, 0, pieces, delim);
  }

  /** PiecesOfJoin for a join that makes up the text from position `a` on. */
  lemma {:induction false} PiecesFromJoin(s: string, a: int, pieces: seq<string>, delim: char)
    requires 0 <= a <= |s| && s[a..] == Join(pieces, delim)
    requires forall j | 0 <= j < |pieces| :: delim !in pieces[j]
    requires pieces != [] ==> pieces[|pieces| - 1] != []
    ensures PiecesFrom(s, a, delim) == pieces
    decreases |pieces|
  {
    if |pieces| <= 1 {
      FewJoined(s, a, pieces, delim);
    } else {
      JoinedTail(s, a, pieces, delim);
      PiecesFromJoin(s, a + |pieces[0]| + 1, pieces[1..], delim);
      FirstJoined(s, a, pieces, delim);
    }
  }

  /** After the first piece and its delimiter comes the join of the other pieces. */
  lemma JoinedTail(s: string, a: int, pieces: seq<string>, delim: char)
    requires 0 <= a <= |s| && s[a..] == Join(pieces, delim) && |pieces| > 1
    requires forall j | 0 <= j < |pieces| :: delim !in pieces[j]
    requires pieces[|pieces| - 1] != []
    ensures a + |pieces[0]| < |s| && s[a..a + |pieces[0]|] == pieces[0] && s[a + |pieces[0]|] == delim
    ensures s[a + |pieces[0]| + 1..] == Join(pieces[1..], delim)
    ensures forall j | 0 <= j < |pieces[1..]| :: delim !in pieces[1..][j]
    ensures pieces[1..][|pieces[1..]| - 1] != []
  {
    SliceParts(s, a, pieces[0], delim, Join(pieces[1..], delim));
  }

  /** PiecesFromJoin for no piece and for one piece. */
  lemma FewJoined(s: string, a: int, pieces: seq<string>, delim: char)
    requires 0 <= a <= |s| && s[a..] == Join(pieces, delim) && |pieces| <= 1
    requires forall j | 0 <= j < |pieces| :: delim !in pieces[j]
    requires pieces != [] ==> pieces[|pieces| - 1] != []
    ensures PiecesFrom(s, a, delim) == pieces
  {
    if |pieces| == 0 {
      assert |s[a..]| == 0;
    } else {
      OneJoined(s, a, pieces, delim);
    }
  }

  /** The one piece of a join of one piece. */
  lemma OneJoined(s: string, a: int, pieces: seq<string>, delim: char)
    requires 0 <= a <= |s| && |pieces| == 1 && s[a..] == pieces[0]
    requires delim !in pieces[0] && pieces[0] != []
    ensures PiecesFrom(s, a, delim) == pieces
  {
    PieceAt(s, a, |s|, pieces[0], delim);
    PiecesFromAt(s, a, |s|, |s| + 1, delim);
    assert pieces == [pieces[0]];
  }

  /** The first piece of a join, followed by the pieces of the rest. */
  lemma FirstJoined(s: string, a: int, pieces: seq<string>, delim: char)
    requires |pieces| > 0 && delim !in pieces[0]
    requires 0 <= a && a + |pieces[0]| < |s|
    requires s[a..a + |pieces[0]|] == pieces[0] && s[a + |pieces[0]|] == delim
    requires PiecesFrom(s, a + |pieces[0]| + 1, delim) == pieces[1..]
    ensures PiecesFrom(s, a, delim) == pieces
  {
    var n := a + |pieces[0]|;
    PieceAt(s, a, n, pieces[0], delim);
    PiecesFromAt(s, a, n, n + 1, delim);
    assert pieces == [pieces[0]] + pieces[1..];
  }

  /** A piece without the delimiter that starts at `a` and ends at the text's end or at
      a delimiter is the piece read from `a`. */
  lemma PieceAt(s: string, a: int, n: int, x: string, delim: char)
    requires 0 <= a <= n <= |s| && s[a..n] == x && delim !in x
    requires n == |s| || s[n] == delim
    ensures PieceEnd(s, a, delim) == n
  {
    forall j | a <= j < n
      ensures s[j] != delim
    {
      assert s[j] == x[j - a];
    }
    PieceEndAt(s, a, n, delim);
  }

  /** A suffix made of a part, an element and a rest has each at its place. */
  lemma SliceParts<T>(s: seq<T>, a: int, x: seq<T>, d: T, t: seq<T>)
    requires 0 <= a <= |s| && s[a..] == x + [d] + t
    ensures a + |x| < |s| && s[a..a + |x|] == x && s[a + |x|] == d && s[a + |x| + 1..] == t
  {
    assert s[a..][..|x|] == x;
    assert s[a..][|x|] == d;
    assert s[a..][|x| + 1..] == t;
  }

  /** The getline loop of `split`: read characters up to the delimiter, drop the
      delimiter, keep the piece, until the text is used up. */
  method Split(s: string, delim: char) returns (elements: seq<string>)
    ensures elements == Pieces(s, delim)
  {
    elements := [];
    var pos := 0;
    while pos < |s|
      invariant 0 <= pos <= |s|
      invariant elements + PiecesFrom(s, pos, delim) == Pieces(s, delim)
      decreases |s| - pos
    {
      var item, next := ReadItem(s, pos, delim);
      assert elements + [item] + PiecesFrom(s, next, delim) == elements + PiecesFrom(s, pos, delim);
      elements := elements + [item];
      pos := next;
    }
  }

  /** One `getline`: the piece starting at `start`, and the position after the
      delimiter that ended it. */
  method ReadItem(s: string, start: int, delim: char) returns (item: string, next: int)
    requires 0 <= start < |s|
    ensures item == s[start..PieceEnd(s, start, delim)]
    ensures next == if PieceEnd(s, start, delim) < |s| then PieceEnd(s, start, delim) + 1 else |s|
    ensures PiecesFrom(s, start, delim) == [item] + PiecesFrom(s, next, delim)
  {
    item := [];
    var pos := start;
    while pos < |s| && s[pos] != delim
      invariant start <= pos <= |s|
      invariant item == s[start..pos]
      invariant PieceEnd(s, pos, delim) == PieceEnd(s, start, delim)
    {
      item := item + [s[pos]];
      pos := pos + 1;
    }
    next := if pos < |s| then pos + 1 else pos;
  }

  // ---------------------------------------------------------------------------------
  // Integers

  const IntMin := -0x8000_0000
  const IntMax := 0x7fff_ffff

  /** The characters `isspace` accepts in the C locale. */
  predicate IsSpace(c: char) {
    c == ' ' || c == '\t' || c == '\n' || c == '\r' || c == '\U{B}' || c == '\U{C}'
  }

  predicate IsDigit(c: char) {
    '0' <= c <= '9'
  }

  /** The first position at or after `i` that is not white space. */
  function SpaceEnd(s: string, i: int): (e: int)
    requires 0 <= i <= |s|
    ensures i <= e <= |s|
    ensures e < |s| ==> !IsSpace(s[e])
    ensures forall j | i <= j < e :: IsSpace(s[j])
    decreases |s| - i
  {
    if i < |s| && IsSpace(s[i]) then SpaceEnd(s, i + 1) else i
  }

  /** The first position at or after `i` that is not a digit. */
  function DigitEnd(s: string, i: int): (e: int)
    requires 0 <= i <= |s|
    ensures i <= e <= |s|
    ensures e < |s| ==> !IsDigit(s[e])
    ensures forall j | i <= j < e :: IsDigit(s[j])
    decreases |s| - i
  {
    if i < |s| && IsDigit(s[i]) then DigitEnd(s, i + 1) else i
  }

  function DigitValue(c: char): (d: int)
    requires IsDigit(c)
    ensures 0 <= d <= 9
  {
    c as int - '0' as int
  }

  /** The value of the decimal digits `s[i..j]`, most significant first. */
  function Decimal(s: string, i: int, j: int): (n: int)
    requires 0 <= i <= j <= |s|
    requires forall k | i <= k < j :: IsDigit(s[k])
    ensures n >= 0
    decreases j - i
  {
    if j == i then 0 else Decimal(s, i, j - 1) * 10 + DigitValue(s[j - 1])
  }

  /** `std::stoi` in base 10: leading white space, an optional sign, then as many digits
      as there are; what follows them is ignored. No digits (`invalid_argument`) or a
      value outside the 32-bit range (`out_of_range`) give no number. */
  function Stoi(s: string): (r: Option<int>)
    ensures r.Some? ==> IntMin <= r.value <= IntMax
    ensures r.Some? ==> exists j | 0 <= j < |s| :: IsDigit(s[j])
  {
    var a := SpaceEnd(s, 0);
    var signed := a < |s| && (s[a] == '-' || s[a] == '+');
    var b := if signed then a + 1 else a;
    var e := DigitEnd(s, b);
    if e == b then Nothing
    else
      assert IsDigit(s[b]);
      var n := if signed && s[a] == '-' then -Decimal(s, b, e) else Decimal(s, b, e);
      if IntMin <= n <= IntMax then Some(n) else Nothing
  }

  /** The decimal digits of `n`, most significant first, without leading zeros. */
  function Digits(n: nat): (r: string)
    ensures r != [] && forall j | 0 <= j < |r| :: IsDigit(r[j])
  {
    if n < 10 then [('0' as int + n) as char] else Digits(n / 10) + [('0' as int + n % 10) as char]
  }

  /** `n` written in decimal, with a minus sign when negative. */
  function Show(n: int): string {
    if n < 0 then ['-'] + Digits(-n) else Digits(n)
  }

  /** The digits of `n`, found at `s[i..j]`, read back as `n`. */
  lemma {:induction false} DecimalOfDigits(s: string, i: int, j: int, n: nat)
    requires 0 <= i <= j <= |s| && s[i..j] == Digits(n)
    ensures forall k | i <= k < j :: IsDigit(s[k])
    ensures Decimal(s, i, j) == n
  {
    var d := Digits(n);
    assert forall k | i <= k < j :: s[k] == d[k - i];
    if n >= 10 {
      assert s[i..j - 1] == d[..|d| - 1] == Digits(n / 10);
      DecimalOfDigits(s, i, j - 1, n / 10);
    }
  }

  /** A run of digits ends where the digits do. */
  lemma {:induction false} DigitEndAt(s: string, i: int, e: int)
    requires 0 <= i <= e <= |s|
    requires forall k | i <= k < e :: IsDigit(s[k])
    requires e == |s| || !IsDigit(s[e])
    ensures DigitEnd(s, i) == e
    decreases e - i
  {
    if i < e {
      DigitEndAt(s, i + 1, e);
    }
  }

  /** Reading back a 32-bit integer written in decimal gives the integer, whatever
      non-digit text follows it. */
  lemma StoiShow(n: int, t: string)
    requires IntMin <= n <= IntMax
    requires t == [] || !IsDigit(t[0])
    ensures Stoi(Show(n) + t) == Some(n)
  {
    var w := Show(n);
    var s := w + t;
    var b := if n < 0 then 1 else 0;
    var d := if n < 0 then Digits(-n) else Digits(n);
    assert w == s[..|w|];
    assert s[b..|w|] == d;
    assert SpaceEnd(s, 0) == 0;
    DecimalOfDigits(s, b, |w|, if n < 0 then -n else n);
    assert |w| == |s| || s[|w|] == t[0];
    DigitEndAt(s, b, |w|);
  }
}
