/**
 * Opening the file of a screencast (src/shell-recorder.c): expanding the
 * filename pattern and trying names until one can be opened.
 */
module RecorderFiles {
  import opened Wrappers
  import opened RecorderNames

  // ---- The pattern ------------------------------------------------------------------

  /** Unique also stands for the second half of %t, whose case falls through to %u. */
  datatype Piece = Text(c: char) | Count | Date | Time | Unique

  /** PastEnd: a lone % at the end, after which the scan runs past the end of the pattern. */
  datatype Ending = Complete | UnknownEscape | PastEnd

  datatype Scanned = Scanned(pieces: seq<Piece>, ending: Ending)

  function Pieces(escape: char): Option<seq<Piece>> {
    match escape
    case '%' => Some([Text('%')])
    case 'c' => Some([Count])
    case 'd' => Some([Date])
    case 't' => Some([Time, Unique])
    case 'u' => Some([Unique])
    case _ => None
  }

  function Scan(pattern: string): Scanned {
    if pattern == "" then Scanned([], Complete)
    else if pattern[0] != '%' then
      var rest := Scan(pattern[1..]);
      Scanned([Text(pattern[0])] + rest.pieces, rest.ending)
    else if |pattern| == 1 then Scanned([Text('%')], PastEnd)
    else if Pieces(pattern[1]).None? then Scanned([], UnknownEscape)
    else
      var rest := Scan(pattern[2..]);
      Scanned(Pieces(pattern[1]).value + rest.pieces, rest.ending)
  }

  /** The texts of the escapes, the same for all tries. */
  datatype Texts = Texts(count: string, date: string, time: string)

  function PieceText(p: Piece, x: Texts, unique: string): string {
    match p
    case Text(c) => [c]
    case Count => x.count
    case Date => x.date
    case Time => x.time
    case Unique => unique
  }

  function Name(pieces: seq<Piece>, x: Texts, unique: string): string {
    if pieces == [] then "" else PieceText(pieces[0], x, unique) + Name(pieces[1..], x, unique)
  }

  lemma {:induction false} NameAppend(a: seq<Piece>, b: seq<Piece>, x: Texts, unique: string)
    ensures Name(a + b, x, unique) == Name(a, x, unique) + Name(b, x, unique)
  {
    if a == [] {
      assert a + b == b;
    } else {
      assert (a + b)[1..] == a[1..] + b;
      NameAppend(a[1..], b, x, unique);
    }
  }

  lemma NameOfNone(x: Texts, unique: string)
    ensures Name([], x, unique) == ""
  {
  }

  lemma NameOfOne(p: Piece, x: Texts, unique: string)
    ensures Name([p], x, unique) == PieceText(p, x, unique)
  {
    assert [p][1..] == [];
    assert Name([p], x, unique) == PieceText(p, x, unique) + Name([], x, unique);
  }

  lemma NameOfEscape(p: char, x: Texts, unique: string)
    ensures Name([], x, unique) == ""
    ensures Name([Text(p)], x, unique) == [p]
    ensures Name([Count], x, unique) == x.count
    ensures Name([Date], x, unique) == x.date
    ensures Name([Time, Unique], x, unique) == x.time + unique
    ensures Name([Unique], x, unique) == unique
  {
    hide Name;
    NameOfNone(x, unique);
    NameOfOne(Text(p), x, unique);
    NameOfOne(Count, x, unique);
    NameOfOne(Date, x, unique);
    NameOfOne(Unique, x, unique);
    NameOfOne(Time, x, unique);
    NameAppend([Time], [Unique], x, unique);
    assert [Time] + [Unique] == [Time, Unique];
  }

  /** What each escape stands for, and that there are no others */
  lemma EscapesAre(x: Texts, unique: string, c: char)
    ensures Pieces(c).Some? <==> c in {'%', 'c', 'd', 't', 'u'}
    ensures Pieces(c).Some? ==>
              Name(Pieces(c).value, x, unique) ==
              if c == '%' then "%" else if c == 'c' then x.count else if c == 'd' then x.date
              else if c == 't' then x.time + unique else unique
    ensures Pieces(c).Some? ==> (Count in Pieces(c).value <==> c == 'c')
  {
    hide Name;
    NameOfEscape(c, x, unique);
  }

  /** The switch on the character after % */
  method AppendEscape(name: string, escape: char, x: Texts, unique: string)
    returns (r: string, known: bool, counted: bool)
    ensures known <==> Pieces(escape).Some?
    ensures known ==> r == name + Name(Pieces(escape).value, x, unique) && (counted <==> Count in Pieces(escape).value)
    ensures !known ==> r == name && !counted
  {
    hide Name;
    NameOfEscape(escape, x, unique);
    r, known, counted := name, true, false;
    match escape
    case '%' => r := r + "%";
    case 'c' => r := r + x.count; counted := true;
    case 'd' => r := r + x.date;
    case 't' => r := r + x.time; r := r + unique;
    case 'u' => r := r + unique;
    case _ => known := false;
  }

  /** Text without escapes in front of a pattern changes neither how it ends nor which escapes there are. */
  lemma {:induction false} ScanText(text: string, rest: string)
    requires '%' !in text
    ensures Scan(text + rest).ending == Scan(rest).ending
    ensures Count in Scan(text + rest).pieces <==> Count in Scan(rest).pieces
    ensures Unique in Scan(text + rest).pieces <==> Unique in Scan(rest).pieces
  {
    if text == "" {
      assert text + rest == rest;
    } else {
      assert (text + rest)[1..] == text[1..] + rest && text[0] in text;
      ScanText(text[1..], rest);
    }
  }

  lemma {:induction false} ScanEscape(c: char, rest: string)
    requires Pieces(c).Some?
    ensures Scan(['%', c] + rest).ending == Scan(rest).ending
    ensures forall p :: p in Scan(['%', c] + rest).pieces <==> p in Pieces(c).value || p in Scan(rest).pieces
  {
    hide Pieces;
    assert (['%', c] + rest)[2..] == rest;
  }

  lemma ScanNothing()
    ensures Scan("") == Scanned([], Complete)
  {
  }

  /** What one step of the loop does with the front of the rest of the pattern. */
  lemma {:induction false} ScanFront(pattern: string, p: nat)
    requires p <= |pattern|
    ensures p == |pattern| ==> Scan(pattern[p..]) == Scanned([], Complete)
    ensures p < |pattern| && pattern[p] != '%' ==>
              Scan(pattern[p..]) ==
              Scanned([Text(pattern[p])] + Scan(pattern[p + 1..]).pieces, Scan(pattern[p + 1..]).ending)
    ensures p + 1 == |pattern| && pattern[p] == '%' ==> Scan(pattern[p..]) == Scanned([Text('%')], PastEnd)
    ensures p + 1 < |pattern| && pattern[p] == '%' ==>
              Scan(pattern[p..]) == if Pieces(pattern[p + 1]).None? then Scanned([], UnknownEscape)
                                    else Scanned(Pieces(pattern[p + 1]).value + Scan(pattern[p + 2..]).pieces,
                                                 Scan(pattern[p + 2..]).ending)
  {
    hide Pieces;
    if p < |pattern| { assert pattern[p..][1..] == pattern[p + 1..]; }
    if p + 1 < |pattern| { assert pattern[p..][2..] == pattern[p + 2..]; }
  }

  /** The loop over the pattern in recorder_open_outfile */
  method Expand(pattern: string, x: Texts, unique: string) returns (name: string, ending: Ending, hasCount: bool)
    ensures var s := Scan(pattern);
            && ending == s.ending && (hasCount <==> Count in s.pieces)
            && name == Name(s.pieces, x, unique)
  {
    hide Name;
    hide Pieces;
    hide Scan;
    name, ending, hasCount := "", Complete, false;
    ghost var done: seq<Piece> := [];
    NameOfEscape('%', x, unique);
    assert pattern[0..] == pattern && done + Scan(pattern).pieces == Scan(pattern).pieces;
    var p := 0;
    while p < |pattern|
      invariant 0 <= p <= |pattern|
      invariant Scan(pattern) == Scanned(done + Scan(pattern[p..]).pieces, Scan(pattern[p..]).ending)
      invariant name == Name(done, x, unique) && (hasCount <==> Count in done) && ending == Complete
    {
      ghost var more: seq<Piece>;
      ScanFront(pattern, p);
      if pattern[p] == '%' {
        if p + 1 == |pattern| {
          NameAppend(done, [Text('%')], x, unique);
          return name + "%", PastEnd, hasCount;
        }
        var known, counted;
        name, known, counted := AppendEscape(name, pattern[p + 1], x, unique);
        if !known {
          assert done + [] == done;
          return name, UnknownEscape, hasCount;
        }
        more := Pieces(pattern[p + 1]).value;
        hasCount := hasCount || counted;
        p := p + 1;
      } else {
        more := [Text(pattern[p])];
        NameOfEscape(pattern[p], x, unique);
        name := name + [pattern[p]];
      }
      p := p + 1;
      NameAppend(done, more, x, unique);
      assert done + (more + Scan(pattern[p..]).pieces) == done + more + Scan(pattern[p..]).pieces;
      done := done + more;
    }
    assert done + [] == done && pattern[p..] == "";
    ScanFront(pattern, p);
  }

  // ---- Trying names -------------------------------------------------------------------

  lemma {:induction false} NameLength(pieces: seq<Piece>, x: Texts, u: string, v: string)
    ensures |u| == |v| ==> |Name(pieces, x, u)| == |Name(pieces, x, v)|
    ensures |u| < |v| ==> |Name(pieces, x, u)| <= |Name(pieces, x, v)|
    ensures |u| < |v| && Unique in pieces ==> |Name(pieces, x, u)| < |Name(pieces, x, v)|
  {
    if pieces != [] { NameLength(pieces[1..], x, u, v); }
  }

  lemma {:induction false} NameSplits(pieces: seq<Piece>, x: Texts, u: string, v: string)
    requires |u| == |v| && Unique in pieces && Name(pieces, x, u) == Name(pieces, x, v)
    ensures u == v
  {
    var a, b := PieceText(pieces[0], x, u), PieceText(pieces[0], x, v);
    var r, s := Name(pieces[1..], x, u), Name(pieces[1..], x, v);
    assert |a| == |b| && (a + r)[..|a|] == a && (b + s)[..|b|] == b;
    assert (a + r)[|a|..] == r && (b + s)[|b|..] == s;
    if pieces[0] != Unique { NameSplits(pieces[1..], x, u, v); }
  }

  /** With a place for the unique string, different unique strings give different names. */
  lemma NameInjective(pieces: seq<Piece>, x: Texts, u: string, v: string)
    requires Unique in pieces && Name(pieces, x, u) == Name(pieces, x, v)
    ensures u == v
  {
    NameLength(pieces, x, u, v);
    NameLength(pieces, x, v, u);
    NameSplits(pieces, x, u, v);
  }

  lemma {:induction false} NameConstant(pieces: seq<Piece>, x: Texts, u: string, v: string)
    requires Unique !in pieces
    ensures Name(pieces, x, u) == Name(pieces, x, v)
  {
    if pieces != [] { NameConstant(pieces[1..], x, u, v); }
  }

  /** The file system: the names that exist, and those that cannot be opened for another reason. */
  datatype Files = Files(existing: set<string>, refused: set<string>)

  datatype Outcome = Opened(name: string) | Failed | Retry

  /** What a call depends on besides the unique string. */
  datatype Call = Call(pieces: seq<Piece>, texts: Texts, exclusive: bool, picked: Option<string>, files: Files)

  /**
   * One try: open with O_EXCL if the pattern has a count, and retry only
   * after EEXIST and with no unique string picked before.
   */
  function TryName(c: Call, name: string): Outcome {
    if name in c.files.refused then Failed
    else if !c.exclusive || name !in c.files.existing then Opened(name)
    else if c.picked.Some? then Failed
    else Retry
  }

  /** The k-th name, from 0 */
  function NameAt(c: Call, k: nat): string {
    Name(c.pieces, c.texts, if c.picked.Some? then c.picked.value else At(k))
  }

  function Attempt(c: Call, k: nat): Outcome {
    TryName(c, NameAt(c, k))
  }

  /** The first name is taken, would be tried again, and never changes. */
  predicate Stuck(c: Call) {
    Unique !in c.pieces && Attempt(c, 0) == Retry
  }

  lemma SameNames(c: Call, k: nat)
    requires Unique !in c.pieces || c.picked.Some?
    ensures NameAt(c, k) == NameAt(c, 0)
  {
    if c.picked.None? { NameConstant(c.pieces, c.texts, At(k), At(0)); }
  }

  lemma DistinctNames(c: Call, j: nat, k: nat)
    requires Unique in c.pieces && c.picked.None? && j != k
    ensures NameAt(c, j) != NameAt(c, k)
  {
    if NameAt(c, j) == NameAt(c, k) {
      NameInjective(c.pieces, c.texts, At(j), At(k));
      PlaceAt(j);
      PlaceAt(k);
    }
  }

  /** Every try before the k-th was a collision. */
  ghost predicate AllTaken(c: Call, k: nat) {
    forall j: nat :: j < k ==> Attempt(c, j) == Retry
  }

  /** While every try was a collision, the names tried are pairwise distinct existing files. */
  lemma {:induction false} CollisionsAreFiles(c: Call, k: nat)
    requires !Stuck(c) && AllTaken(c, k)
    ensures forall i, j :: 0 <= i < j < k ==> NameAt(c, i) != NameAt(c, j)
    ensures k <= |c.files.existing|
  {
    if k > 0 {
      assert Attempt(c, 0) == Retry;
      forall i, j | 0 <= i < j < k ensures NameAt(c, i) != NameAt(c, j) { DistinctNames(c, i, j); }
      var tried := NamesTried(c, k);
      NamesTriedSize(c, k);
      forall j | 0 <= j < k ensures NameAt(c, j) in c.files.existing { assert Attempt(c, j) == Retry; }
      assert tried <= c.files.existing;
      Fewer(tried, c.files.existing);
    }
  }

  ghost function NamesTried(c: Call, k: nat): set<string> {
    if k == 0 then {} else NamesTried(c, k - 1) + {NameAt(c, k - 1)}
  }

  lemma {:induction false} NamesTriedSize(c: Call, k: nat)
    ensures forall n :: n in NamesTried(c, k) ==> exists j :: 0 <= j < k && NameAt(c, j) == n
    ensures (forall i, j :: 0 <= i < j < k ==> NameAt(c, i) != NameAt(c, j)) ==> |NamesTried(c, k)| == k
  {
    hide NameAt;
    if k > 0 { NamesTriedSize(c, k - 1); }
  }

  lemma {:induction false} Fewer(s: set<string>, t: set<string>)
    requires s <= t
    ensures |s| <= |t|
  {
    assert |t| == |s| + |t - s| by { assert t == s + (t - s); }
  }

  /**
   * The tries come to an end if and only if the call is not stuck, and then
   * within one more try than there are files.
   */
  lemma TriesEnd(c: Call)
    ensures (exists k: nat :: Attempt(c, k) != Retry) <==> !Stuck(c)
    ensures !Stuck(c) ==> exists k: nat :: k <= |c.files.existing| && Attempt(c, k) != Retry
  {
    if Stuck(c) {
      forall k: nat ensures Attempt(c, k) == Retry { SameNames(c, k); }
    } else {
      var n := |c.files.existing| + 1;
      if AllTaken(c, n) {
        CollisionsAreFiles(c, n);
      }
    }
  }

  // ---- The loop ----------------------------------------------------------------------------

  /** The k-th try is the last, and its outcome that of the call. */
  ghost predicate EndsAt(c: Call, k: nat, outfile: Option<string>) {
    && AllTaken(c, k)
    && Attempt(c, k) != Retry
    && k <= |c.files.existing|
    && outfile == if Attempt(c, k).Opened? then Some(Attempt(c, k).name) else None
  }

  lemma NoneTaken(c: Call)
    ensures AllTaken(c, 0) && At(0) == ""
  {
  }

  lemma AttemptIs(c: Call, k: nat, o: Outcome)
    requires o == TryName(c, Name(c.pieces, c.texts, if c.picked.Some? then c.picked.value else At(k)))
    ensures Attempt(c, k) == o
  {
  }

  lemma OneTry(c: Call, k: nat)
    requires AllTaken(c, k)
    ensures c.picked.Some? ==> k == 0 && At(k) == ""
  {
    if k > 0 { assert Attempt(c, 0) == Retry; }
  }

  lemma TriedOneMore(c: Call, k: nat)
    requires AllTaken(c, k) && Attempt(c, k) == Retry
    ensures AllTaken(c, k + 1)
  {
  }

  /** The call ends at the first try that is not a collision. */
  lemma EndsHere(c: Call, k: nat)
    requires AllTaken(c, k) && Attempt(c, k) != Retry
    ensures !Stuck(c)
    ensures EndsAt(c, k, if Attempt(c, k).Opened? then Some(Attempt(c, k).name) else None)
  {
    TriesEnd(c);
    CollisionsAreFiles(c, k);
  }

  /** After one more try than there are files, only a call that never ends is still trying. */
  lemma StillTryingIsStuck(c: Call, k: nat)
    requires AllTaken(c, k) && k > |c.files.existing|
    ensures Stuck(c)
  {
    if !Stuck(c) { CollisionsAreFiles(c, k); }
  }

  /**
   * A file that exists is opened, and truncated, if and only if the call is
   * not exclusive and the first name is that of a file that exists.
   */
  lemma Overwrites(c: Call, k: nat, name: string)
    requires EndsAt(c, k, Some(name))
    ensures name in c.files.existing <==> !c.exclusive && NameAt(c, 0) in c.files.existing
  {
    if k > 0 { assert Attempt(c, 0) == Retry; }
  }

  /**
   * Only a name that can be opened is; the call gives up on one that cannot,
   * and on a collision with the unique string picked before.
   */
  lemma HowItEnds(c: Call, k: nat, outfile: Option<string>)
    requires EndsAt(c, k, outfile)
    ensures outfile.Some? ==> outfile.value == NameAt(c, k) && outfile.value !in c.files.refused
    ensures outfile.None? ==>
              || NameAt(c, k) in c.files.refused
              || (c.exclusive && NameAt(c, k) in c.files.existing && c.picked.Some?)
  {
  }

  lemma NextAt(n: nat, s: string)
    requires Lower(s) && Place(s) == n + 1
    ensures s == At(n + 1)
  {
    AtPlace(s);
  }
}
