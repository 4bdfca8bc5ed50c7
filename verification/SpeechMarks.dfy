/** Following a spoken text: speech marks are consumed as the playback time advances. */
module SpeechMarks {
  import opened Wrappers

  datatype MarkType = Word | Sentence | SSML | Viseme | Unknown
  datatype Mark = Mark(kind: MarkType, time: nat, value: string)
  datatype Range = Range(lower: nat, upper: nat)
  datatype Output = Event(mark: Mark) | Highlight(range: Range)

  /** What does not change while the text is spoken: an empty text is not highlighted. */
  datatype Setting = Setting(text: string, hasHandler: bool, toLower: string -> string)

  /** The fields mNextMark and mTextPosition, and what has been sent out so far. */
  datatype Progress = Progress(nextMark: nat, textPosition: nat, sent: seq<Output>)

  // ----- finding a word -----

  function Hyphen(value: string, pos: nat): (r: Option<nat>)
    requires pos <= |value|
    ensures r.Some? ==> pos <= r.value < |value| && value[r.value] == '-'
    ensures forall k :: pos <= k < (if r.Some? then r.value else |value|) ==> value[k] != '-'
    decreases |value| - pos
  {
    if pos == |value| then None else if value[pos] == '-' then Some(pos) else Hyphen(value, pos + 1)
  }

  predicate OccursAt(text: string, pattern: string, k: nat) {
    k + |pattern| <= |text| && text[k..k + |pattern|] == pattern
  }

  /** std::string::find: the first place of the pattern, from `start` on. */
  function Find(text: string, pattern: string, start: nat): (r: Option<nat>)
    ensures r.Some? ==> start <= r.value && r.value + |pattern| <= |text|
    decreases |text| + 1 - start
  {
    if start + |pattern| > |text| then None
    else if OccursAt(text, pattern, start) then Some(start)
    else Find(text, pattern, start + 1)
  }

  lemma {:induction false} FindIsFirst(text: string, pattern: string, start: nat)
    ensures var r := Find(text, pattern, start);
            && (r.Some? ==> OccursAt(text, pattern, r.value))
            && forall k :: start <= k < (if r.Some? then r.value else |text| + 1) ==> !OccursAt(text, pattern, k)
    decreases |text| + 1 - start
  {
    if start + |pattern| <= |text| && !OccursAt(text, pattern, start) {
      FindIsFirst(text, pattern, start + 1);
    }
  }

  /**
   * The loop over the hyphens of a word.  The length of each piece is taken from its place in the word, but
   * the characters searched for are always the first ones of the word.
   */
  function Match(text: string, value: string, pos: nat, start: nat): (r: Option<Range>)
    requires pos <= |value|
    ensures r.Some? ==> start <= r.value.lower <= r.value.upper < |text|
    decreases |value| - pos
  {
    var offset := Hyphen(value, pos);
    var count := (if offset.Some? then offset.value else |value|) - pos;
    var found := if count > 0 then Find(text, value[..count], start) else None;
    if found.Some? then Some(Range(found.value, found.value + count - 1))
    else if offset.None? then None
    else Match(text, value, offset.value + 1, start)
  }

  /** What is highlighted is always the beginning of the word. */
  lemma {:induction false} MatchIsBeginning(text: string, value: string, pos: nat, start: nat)
    requires pos <= |value| && Match(text, value, pos, start).Some?
    ensures var r := Match(text, value, pos, start).value;
            var n := r.upper + 1 - r.lower;
            n <= |value| && text[r.lower..r.upper + 1] == value[..n]
    decreases |value| - pos
  {
    hide Match, Find, Hyphen;
    MatchStep(text, value, pos, start);
    var offset := Hyphen(value, pos);
    var count := (if offset.Some? then offset.value else |value|) - pos;
    FindIsFirst(text, value[..count], start);
    if offset.Some? && !(count > 0 && Find(text, value[..count], start).Some?) {
      MatchIsBeginning(text, value, offset.value + 1, start);
    }
  }

  lemma MatchStep(text: string, value: string, pos: nat, start: nat)
    requires pos <= |value|
    ensures var offset := Hyphen(value, pos);
            var count := (if offset.Some? then offset.value else |value|) - pos;
            var found := if count > 0 then Find(text, value[..count], start) else None;
            Match(text, value, pos, start) ==
            if found.Some? then Some(Range(found.value, found.value + count - 1))
            else if offset.None? then None
            else Match(text, value, offset.value + 1, start)
  {
  }

  // ----- what a search piece by piece would find -----

  /** The same loop with each piece searched for as it is. */
  function MatchPieces(text: string, value: string, pos: nat, start: nat): (r: Option<Range>)
    requires pos <= |value|
    decreases |value| - pos
  {
    var offset := Hyphen(value, pos);
    var end := if offset.Some? then offset.value else |value|;
    var found := if end > pos then Find(text, value[pos..end], start) else None;
    if found.Some? then Some(Range(found.value, found.value + (end - pos) - 1))
    else if offset.None? then None
    else MatchPieces(text, value, offset.value + 1, start)
  }

  /** The place where the piece that begins at pos ends. */
  function PieceEnd(value: string, pos: nat): (end: nat)
    requires pos <= |value|
    ensures pos <= end <= |value|
  {
    var offset := Hyphen(value, pos);
    if offset.Some? then offset.value else |value|
  }

  ghost predicate Contains(text: string, pattern: string) {
    exists k: nat :: OccursAt(text, pattern, k)
  }

  /** The bounds of a piece of a word. */
  datatype Piece = Piece(from: nat, to: nat)

  /** The pieces of the word from pos on that are not empty, in order. */
  function Pieces(value: string, pos: nat): (r: seq<Piece>)
    requires pos <= |value|
    ensures forall p :: p in r ==> pos <= p.from < p.to <= |value|
    decreases |value| - pos
  {
    var end := PieceEnd(value, pos);
    var here := if end > pos then [Piece(pos, end)] else [];
    if Hyphen(value, pos).None? then here else here + Pieces(value, end + 1)
  }

  /** A stretch from pos on, without hyphens and not empty, that ends at hyphens or at the ends of the word. */
  predicate IsPiece(value: string, pos: nat, p: Piece)
    requires pos <= |value|
  {
    && pos <= p.from < p.to <= |value| && '-' !in value[p.from..p.to]
    && (p.from == pos || value[p.from - 1] == '-') && (p.to == |value| || value[p.to] == '-')
  }

  /** The pieces are all such stretches, from left to right. */
  lemma {:induction false} PiecesAreAll(value: string, pos: nat)
    requires pos <= |value|
    ensures forall p :: p in Pieces(value, pos) <==> IsPiece(value, pos, p)
    ensures forall i, j :: 0 <= i < j < |Pieces(value, pos)| ==> Pieces(value, pos)[i].to < Pieces(value, pos)[j].from
    decreases |value| - pos
  {
    var end := PieceEnd(value, pos);
    if Hyphen(value, pos).Some? {
      PiecesAreAll(value, end + 1);
    }
    forall p ensures p in Pieces(value, pos) <==> IsPiece(value, pos, p) {
      OnePiece(value, pos, p);
    }
  }

  lemma OnePiece(value: string, pos: nat, p: Piece)
    requires pos <= |value|
    ensures var end := PieceEnd(value, pos);
            IsPiece(value, pos, p) <==>
              || (p == Piece(pos, end) && end > pos)
              || (end < |value| && IsPiece(value, end + 1, p))
  {
  }

  function Text(value: string, p: Piece): string
    requires p.from <= p.to <= |value|
  {
    value[p.from..p.to]
  }

  /** The characters that the code searches for in the turn of a piece. */
  function Searched(value: string, p: Piece): string
    requires p.from <= p.to <= |value|
  {
    value[..p.to - p.from]
  }

  /**
   * A piece that the code's search treats rightly whatever the text: it is the beginning of the word, or it contains
   * an earlier piece and is thus never the first to be found.
   */
  ghost predicate Harmless(value: string, pieces: seq<Piece>, j: nat)
    requires j < |pieces| && forall p :: p in pieces ==> p.from < p.to <= |value|
  {
    || Text(value, pieces[j]) == Searched(value, pieces[j])
    || exists i :: 0 <= i < j && Contains(Text(value, pieces[j]), Text(value, pieces[i]))
  }

  /** A condition on the word alone; every word without a hyphen meets it. */
  ghost predicate Splittable(value: string) {
    var pieces := Pieces(value, 0);
    forall j :: 0 <= j < |pieces| ==> Harmless(value, pieces, j)
  }

  /** The first of these pieces that is found: searched for as it is, or as the code does. */
  function First(text: string, value: string, pieces: seq<Piece>, start: nat, split: bool): Option<Range>
    requires forall p :: p in pieces ==> p.from < p.to <= |value|
  {
    if pieces == [] then None
    else
      var pattern := if split then Text(value, pieces[0]) else Searched(value, pieces[0]);
      var found := Find(text, pattern, start);
      if found.Some? then Some(Range(found.value, found.value + |pattern| - 1))
      else First(text, value, pieces[1..], start, split)
  }

  lemma {:induction false} MatchIsFirst(text: string, value: string, pos: nat, start: nat)
    requires pos <= |value|
    ensures Match(text, value, pos, start) == First(text, value, Pieces(value, pos), start, false)
    ensures MatchPieces(text, value, pos, start) == First(text, value, Pieces(value, pos), start, true)
    decreases |value| - pos
  {
    hide Match, MatchPieces, Find, Hyphen, Pieces, Text, Searched;
    var offset, end := Hyphen(value, pos), PieceEnd(value, pos);
    EndOfPiece(value, pos);
    MatchStep(text, value, pos, start);
    PiecesStep(text, value, pos, start);
    if offset.Some? {
      MatchIsFirst(text, value, end + 1, start);
    }
    var rest := if offset.None? then [] else Pieces(value, end + 1);
    assert Pieces(value, pos) == if end > pos then [Piece(pos, end)] + rest else rest;
    if end > pos {
      FirstStep(text, value, Piece(pos, end), rest, start);
    }
  }

  lemma EndOfPiece(value: string, pos: nat)
    requires pos <= |value|
    ensures PieceEnd(value, pos) == if Hyphen(value, pos).Some? then Hyphen(value, pos).value else |value|
  {
  }

  lemma PiecesStep(text: string, value: string, pos: nat, start: nat)
    requires pos <= |value|
    ensures var offset, end := Hyphen(value, pos), PieceEnd(value, pos);
            && Pieces(value, pos) == (if end > pos then [Piece(pos, end)] else [])
                                     + (if offset.None? then [] else Pieces(value, end + 1))
            && var found := if end > pos then Find(text, value[pos..end], start) else None;
               MatchPieces(text, value, pos, start) ==
               if found.Some? then Some(Range(found.value, found.value + (end - pos) - 1))
               else if offset.None? then None
               else MatchPieces(text, value, end + 1, start)
  {
  }

  lemma FirstStep(text: string, value: string, p: Piece, rest: seq<Piece>, start: nat)
    requires p.from < p.to <= |value| && forall q :: q in rest ==> q.from < q.to <= |value|
    ensures var found := Find(text, value[p.from..p.to], start);
            First(text, value, [p] + rest, start, true) ==
            if found.Some? then Some(Range(found.value, found.value + (p.to - p.from) - 1))
            else First(text, value, rest, start, true)
    ensures var found := Find(text, value[..p.to - p.from], start);
            First(text, value, [p] + rest, start, false) ==
            if found.Some? then Some(Range(found.value, found.value + (p.to - p.from) - 1))
            else First(text, value, rest, start, false)
  {
    hide Find;
    assert ([p] + rest)[1..] == rest;
  }

  lemma SliceOfSlice(text: string, at: nat, n: nat, k: nat, m: nat)
    requires at + n <= |text| && k + m <= n
    ensures text[at..at + n][k..k + m] == text[at + k..at + k + m]
  {
    var inner, outer := text[at..at + n][k..k + m], text[at + k..at + k + m];
    assert forall i :: 0 <= i < m ==> inner[i] == outer[i];
  }

  /** Where a part is not found, the whole is not found. */
  lemma WholeIsNotFound(text: string, whole: string, part: string, start: nat)
    requires Contains(whole, part) && Find(text, part, start).None?
    ensures Find(text, whole, start).None?
  {
    FindIsFirst(text, part, start);
    FindIsFirst(text, whole, start);
    if Find(text, whole, start).Some? {
      var at := Find(text, whole, start).value;
      var k: nat :| OccursAt(whole, part, k);
      SliceOfSlice(text, at, |whole|, k, |part|);
      assert OccursAt(text, part, at + k);
    }
  }

  /** Neither search has found one of these pieces. */
  ghost predicate NotFound(text: string, value: string, pieces: seq<Piece>, start: nat)
    requires forall p :: p in pieces ==> p.from < p.to <= |value|
  {
    forall i :: 0 <= i < |pieces| ==>
      Find(text, Text(value, pieces[i]), start).None? && Find(text, Searched(value, pieces[i]), start).None?
  }

  /** When the text of a piece contains an earlier one, the characters searched for contain those of the earlier one. */
  lemma HarmlessIsNotFound(text: string, value: string, pieces: seq<Piece>, j: nat, start: nat)
    requires j < |pieces| && forall p :: p in pieces ==> p.from < p.to <= |value|
    requires NotFound(text, value, pieces[..j], start) && Harmless(value, pieces, j)
    requires Text(value, pieces[j]) != Searched(value, pieces[j])
    ensures Find(text, Text(value, pieces[j]), start).None? && Find(text, Searched(value, pieces[j]), start).None?
  {
    var i :| 0 <= i < j && Contains(Text(value, pieces[j]), Text(value, pieces[i]));
    assert pieces[..j][i] == pieces[i];
    assert OccursAt(Searched(value, pieces[j]), Searched(value, pieces[i]), 0);
    WholeIsNotFound(text, Text(value, pieces[j]), Text(value, pieces[i]), start);
    WholeIsNotFound(text, Searched(value, pieces[j]), Searched(value, pieces[i]), start);
  }

  lemma {:induction false} SearchesAgree(text: string, value: string, pieces: seq<Piece>, j: nat, start: nat)
    requires j <= |pieces| && forall p :: p in pieces ==> p.from < p.to <= |value|
    requires forall i :: 0 <= i < |pieces| ==> Harmless(value, pieces, i)
    requires NotFound(text, value, pieces[..j], start)
    ensures First(text, value, pieces[j..], start, false) == First(text, value, pieces[j..], start, true)
    decreases |pieces| - j
  {
    if j < |pieces| {
      assert pieces[j..][0] == pieces[j] && pieces[j..][1..] == pieces[j + 1..];
      if Text(value, pieces[j]) != Searched(value, pieces[j]) {
        HarmlessIsNotFound(text, value, pieces, j, start);
      }
      if Find(text, Text(value, pieces[j]), start).None? {
        assert pieces[..j + 1] == pieces[..j] + [pieces[j]];
        SearchesAgree(text, value, pieces, j + 1, start);
      }
    }
  }

  /** The first piece that one search treats differently is itself a text in which the two differ. */
  lemma {:induction false} FirstFindsItself(value: string, pieces: seq<Piece>, i: nat, j: nat)
    requires i <= j < |pieces| && forall p :: p in pieces ==> p.from < p.to <= |value|
    requires forall k :: i <= k < j ==> !Contains(Text(value, pieces[j]), Text(value, pieces[k]))
    ensures var text := Text(value, pieces[j]);
            First(text, value, pieces[i..], 0, true) == Some(Range(0, |text| - 1))
    decreases j - i
  {
    var text := Text(value, pieces[j]);
    assert pieces[i..][0] == pieces[i] && pieces[i..][1..] == pieces[i + 1..];
    FindIsFirst(text, Text(value, pieces[i]), 0);
    if i < j {
      FirstFindsItself(value, pieces, i + 1, j);
    } else {
      assert OccursAt(text, text, 0);
    }
  }

  lemma HarmfulWordFails(value: string, j: nat)
    requires j < |Pieces(value, 0)| && !Harmless(value, Pieces(value, 0), j)
    ensures var text := Text(value, Pieces(value, 0)[j]);
            text != "" && Match(text, value, 0, 0) != MatchPieces(text, value, 0, 0)
  {
    hide Match, MatchPieces, Find, First, Pieces;
    var pieces := Pieces(value, 0);
    var text := Text(value, pieces[j]);
    assert pieces[j] in pieces && pieces[0..] == pieces;
    FirstFindsItself(value, pieces, 0, j);
    MatchIsFirst(text, value, 0, 0);
    if Match(text, value, 0, 0) == Some(Range(0, |text| - 1)) {
      MatchIsBeginning(text, value, 0, 0);
    }
  }

  /**
   * For which words the code finds what a search piece by piece finds, in every text and from every position: exactly
   * those of which each piece is a beginning of the word or contains an earlier piece.
   */
  lemma SplitsRightlyIff(value: string)
    ensures Splittable(value) <==>
            forall text, start :: 0 <= start < |text| ==>
                Match(text, value, 0, start) == MatchPieces(text, value, 0, start)
  {
    var pieces := Pieces(value, 0);
    if Splittable(value) {
      forall text, start | 0 <= start < |text|
        ensures Match(text, value, 0, start) == MatchPieces(text, value, 0, start)
      {
        MatchIsFirst(text, value, 0, start);
        assert pieces[0..] == pieces;
        SearchesAgree(text, value, pieces, 0, start);
      }
    } else {
      var j :| 0 <= j < |pieces| && !Harmless(value, pieces, j);
      HarmfulWordFails(value, j);
    }
  }

  /** A word without a hyphen is one piece, and is searched for rightly. */
  lemma WholeWordIsSplittable(value: string)
    requires '-' !in value
    ensures Splittable(value)
  {
  }

  /** Whatever the word, a first piece that stands at its beginning and is found is found rightly. */
  lemma FirstPieceIsRight(text: string, value: string, start: nat)
    requires PieceEnd(value, 0) > 0 && Find(text, value[..PieceEnd(value, 0)], start).Some?
    ensures Match(text, value, 0, start) == MatchPieces(text, value, 0, start) != None
  {
  }

  /** "a-b" is a word for which the two differ: its second piece is not found in "b". */
  lemma SecondPieceIsMissed()
    ensures !Splittable("a-b") && Match("b", "a-b", 0, 0) == None && MatchPieces("b", "a-b", 0, 0) == Some(Range(0, 0))
  {
    var value := "a-b";
    assert Hyphen(value, 0) == Some(1) by { assert Hyphen(value, 1) == Some(1); }
    assert Hyphen(value, 2) == None by { assert Hyphen(value, 3) == None; }
    assert Pieces(value, 2) == [Piece(2, 3)];
    assert Pieces(value, 0) == [Piece(0, 1), Piece(2, 3)];
    assert value[2..3] == "b" && value[0..1] == "a" == value[..1];
    assert !Contains("b", "a") by {
      assert "b"[0..1][0] == 'b' && "a"[0] == 'a';
      assert !OccursAt("b", "a", 0);
    }
    HarmfulWordFails(value, 1);
    FirstFindsItself(value, Pieces(value, 0), 0, 1);
    assert Pieces(value, 0)[0..] == Pieces(value, 0);
    MatchIsFirst("b", value, 0, 0);
  }

  // ----- one mark, and all marks up to a time -----

  predicate Speaks(s: Setting, m: Mark, position: nat) {
    m.kind.Word? && m.value != "" && m.value[0] != '<' && s.text != "" && position < |s.text|
  }

  function Take(s: Setting, m: Mark, p: Progress): Progress {
    var sent := if s.hasHandler then p.sent + [Event(m)] else p.sent;
    var range := if Speaks(s, m, p.textPosition) then Match(s.text, s.toLower(m.value), 0, p.textPosition) else None;
    if range.Some? then Progress(p.nextMark + 1, range.value.upper + 1, sent + [Highlight(range.value)])
    else Progress(p.nextMark + 1, p.textPosition, sent)
  }

  function Consume(s: Setting, marks: seq<Mark>, time: nat, p: Progress): (r: Progress)
    ensures r.nextMark >= p.nextMark
    decreases |marks| - p.nextMark
  {
    if p.nextMark < |marks| && marks[p.nextMark].time <= time
    then Consume(s, marks, time, Take(s, marks[p.nextMark], p))
    else p
  }

  /** Consumption stops at the first mark that is later than the time. */
  lemma {:induction false} ConsumesLongestPrefix(s: Setting, marks: seq<Mark>, time: nat, p: Progress)
    requires p.nextMark <= |marks|
    ensures var n := Consume(s, marks, time, p).nextMark;
            && n <= |marks| && (n < |marks| ==> marks[n].time > time)
            && forall i :: p.nextMark <= i < n ==> marks[i].time <= time
    decreases |marks| - p.nextMark
  {
    if p.nextMark < |marks| && marks[p.nextMark].time <= time {
      ConsumesLongestPrefix(s, marks, time, Take(s, marks[p.nextMark], p));
    }
  }

  /** An early update and a later one, with more marks arriving in between, do what the later one alone would do. */
  lemma {:induction false} SplitsMerge(s: Setting, marks: seq<Mark>, more: seq<Mark>, t1: nat, t2: nat, p: Progress)
    requires t1 <= t2
    ensures Consume(s, marks + more, t2, Consume(s, marks, t1, p)) == Consume(s, marks + more, t2, p)
    decreases |marks| - p.nextMark
  {
    if p.nextMark < |marks| && marks[p.nextMark].time <= t1 {
      assert (marks + more)[p.nextMark] == marks[p.nextMark];
      SplitsMerge(s, marks, more, t1, t2, Take(s, marks[p.nextMark], p));
    }
  }

  // ----- whole runs -----

  datatype Step = Arrive(marks: seq<Mark>) | Update(time: nat)

  function Arrived(steps: seq<Step>): seq<Mark> {
    if steps == [] then []
    else Arrived(steps[..|steps| - 1]) + (match steps[|steps| - 1] case Arrive(m) => m case Update(_) => [])
  }

  const START := Progress(0, 0, [])

  function Play(s: Setting, steps: seq<Step>): Progress {
    if steps == [] then START
    else
      var before := steps[..|steps| - 1];
      match steps[|steps| - 1]
      case Arrive(_) => Play(s, before)
      case Update(time) => Consume(s, Arrived(before), time, Play(s, before))
  }

  /** The times of the updates do not go back, and none is after `latest`. */
  ghost predicate Forward(steps: seq<Step>, latest: nat) {
    && (forall i :: 0 <= i < |steps| && steps[i].Update? ==> steps[i].time <= latest)
    && forall i, j :: 0 <= i < j < |steps| && steps[i].Update? && steps[j].Update? ==> steps[i].time <= steps[j].time
  }

  /** Whatever the updates before, an update ends where a single update from the start would end. */
  lemma {:induction false} UpdatesAreOne(s: Setting, steps: seq<Step>, more: seq<Mark>, time: nat)
    requires Forward(steps, time)
    ensures Consume(s, Arrived(steps) + more, time, Play(s, steps)) == Consume(s, Arrived(steps) + more, time, START)
    decreases |steps|
  {
    if steps != [] {
      var before := steps[..|steps| - 1];
      match steps[|steps| - 1]
      case Arrive(m) =>
        assert Arrived(steps) + more == Arrived(before) + (m + more);
        UpdatesAreOne(s, before, m + more, time);
      case Update(t) =>
        assert Arrived(steps) == Arrived(before);
        assert Forward(before, t);
        UpdatesAreOne(s, before, [], t);
        assert Arrived(before) + [] == Arrived(before);
        SplitsMerge(s, Arrived(before), more, t, time, Play(s, before));
        UpdatesAreOne(s, before, more, time);
    }
  }

  /**
   * After any run of arrivals and updates, everything sent out is what one update at the last time would send,
   * and the marks consumed are the longest prefix of those that are due.
   */
  lemma RunIsOneUpdate(s: Setting, steps: seq<Step>, time: nat)
    requires Forward(steps, time)
    ensures Play(s, steps + [Update(time)]) == Consume(s, Arrived(steps), time, START)
    ensures var marks, n := Arrived(steps), Play(s, steps + [Update(time)]).nextMark;
            && n <= |marks| && (n < |marks| ==> marks[n].time > time)
            && forall i :: 0 <= i < n ==> marks[i].time <= time
  {
    assert (steps + [Update(time)])[..|steps|] == steps;
    assert Arrived(steps) + [] == Arrived(steps);
    UpdatesAreOne(s, steps, [], time);
    ConsumesLongestPrefix(s, Arrived(steps), time, START);
  }

  // ----- highlights -----

  function Highlights(sent: seq<Output>): seq<Range> {
    if sent == [] then []
    else Highlights(sent[..|sent| - 1]) + (match sent[|sent| - 1] case Highlight(r) => [r] case Event(_) => [])
  }

  function Events(sent: seq<Output>): seq<Mark> {
    if sent == [] then []
    else Events(sent[..|sent| - 1]) + (match sent[|sent| - 1] case Event(m) => [m] case Highlight(_) => [])
  }

  /** The ranges lie inside the text up to a position, in order and without overlap. */
  ghost predicate Ascending(ranges: seq<Range>, position: nat) {
    && (forall i :: 0 <= i < |ranges| ==> ranges[i].lower <= ranges[i].upper < position)
    && forall i, j :: 0 <= i < j < |ranges| ==> ranges[i].upper < ranges[j].lower
  }

  ghost predicate InText(s: Setting, p: Progress) {
    p.textPosition <= |s.text| && Ascending(Highlights(p.sent), p.textPosition)
  }

  lemma OneMoreOutput(sent: seq<Output>, x: Output)
    ensures Highlights(sent + [x]) == Highlights(sent) + (match x case Highlight(r) => [r] case Event(_) => [])
    ensures Events(sent + [x]) == Events(sent) + (match x case Event(m) => [m] case Highlight(_) => [])
  {
  }

  lemma OneMoreRange(ranges: seq<Range>, position: nat, r: Range)
    requires Ascending(ranges, position) && position <= r.lower <= r.upper
    ensures Ascending(ranges + [r], r.upper + 1)
  {
  }

  lemma TakeStaysInText(s: Setting, m: Mark, p: Progress)
    requires InText(s, p)
    ensures InText(s, Take(s, m, p))
  {
    hide Highlights, Events, Match, Ascending;
    var sent := if s.hasHandler then p.sent + [Event(m)] else p.sent;
    OneMoreOutput(p.sent, Event(m));
    assert Highlights(sent) == Highlights(p.sent);
    var range := if Speaks(s, m, p.textPosition) then Match(s.text, s.toLower(m.value), 0, p.textPosition) else None;
    if range.Some? {
      OneMoreOutput(sent, Highlight(range.value));
      OneMoreRange(Highlights(p.sent), p.textPosition, range.value);
    }
  }

  lemma {:induction false} ConsumeStaysInText(s: Setting, marks: seq<Mark>, time: nat, p: Progress)
    requires InText(s, p)
    ensures InText(s, Consume(s, marks, time, p))
    decreases |marks| - p.nextMark
  {
    if p.nextMark < |marks| && marks[p.nextMark].time <= time {
      TakeStaysInText(s, marks[p.nextMark], p);
      ConsumeStaysInText(s, marks, time, Take(s, marks[p.nextMark], p));
    }
  }

  /** In every run the highlighted ranges lie inside the text, strictly increase and never overlap. */
  lemma {:induction false} HighlightsAscend(s: Setting, steps: seq<Step>)
    ensures InText(s, Play(s, steps))
    decreases |steps|
  {
    if steps != [] {
      var before := steps[..|steps| - 1];
      HighlightsAscend(s, before);
      if steps[|steps| - 1].Update? {
        ConsumeStaysInText(s, Arrived(before), steps[|steps| - 1].time, Play(s, before));
      }
    }
  }

  lemma TakeSendsEvent(s: Setting, m: Mark, p: Progress)
    requires s.hasHandler
    ensures Events(Take(s, m, p).sent) == Events(p.sent) + [m]
  {
  }

  /** The events sent are those of the marks consumed, in order. */
  lemma {:induction false} EventsAreConsumedMarks(s: Setting, marks: seq<Mark>, time: nat, p: Progress)
    requires s.hasHandler && p.nextMark <= |marks|
    requires Events(p.sent) == marks[..p.nextMark]
    ensures var r := Consume(s, marks, time, p); r.nextMark <= |marks| && Events(r.sent) == marks[..r.nextMark]
    decreases |marks| - p.nextMark
  {
    if p.nextMark < |marks| && marks[p.nextMark].time <= time {
      hide Events;
      var m := marks[p.nextMark];
      TakeSendsEvent(s, m, p);
      assert marks[..p.nextMark + 1] == marks[..p.nextMark] + [m];
      EventsAreConsumedMarks(s, marks, time, Take(s, m, p));
    }
  }

  // ----- what is highlighted -----

  /** The first place of a pattern from a position on. */
  ghost predicate FirstAt(text: string, pattern: string, position: nat, k: nat) {
    position <= k && OccursAt(text, pattern, k) && forall i :: position <= i < k ==> !OccursAt(text, pattern, i)
  }

  ghost predicate Missing(text: string, pattern: string, position: nat) {
    forall i :: position <= i ==> !OccursAt(text, pattern, i)
  }

  /** Of the patterns searched for in turn, the first one that occurs is found where it first occurs. */
  ghost predicate FoundFirst(text: string, patterns: seq<string>, position: nat, found: Option<Range>) {
    match found
    case None => forall i :: 0 <= i < |patterns| ==> Missing(text, patterns[i], position)
    case Some(r) =>
      exists j :: 0 <= j < |patterns| && r.upper + 1 == r.lower + |patterns[j]|
               && FirstAt(text, patterns[j], position, r.lower)
               && forall i :: 0 <= i < j ==> Missing(text, patterns[i], position)
  }

  /** What is searched for in the turns of a word: for each piece, as many characters of the word as it has. */
  function Patterns(value: string): seq<string> {
    var pieces := Pieces(value, 0);
    seq(|pieces|, i requires 0 <= i < |pieces| => value[..pieces[i].to - pieces[i].from])
  }

  /**
   * What one mark does at a position of the text.  Only a word that is neither empty nor a tag is looked for, and only
   * before the end of the text.  The text is read on from behind what is found.
   */
  ghost predicate Spoken(s: Setting, m: Mark, position: nat, found: Option<Range>, next: nat) {
    && next == (if found.Some? then found.value.upper + 1 else position)
    && if m.kind != Word || |m.value| == 0 || m.value[0] == '<' || position >= |s.text| then found.None?
       else FoundFirst(s.text, Patterns(s.toLower(m.value)), position, found)
  }

  /** What is sent for each mark: to the handler if there is one, and then the range that is highlighted, if any. */
  function Sent(hasHandler: bool, marks: seq<Mark>, found: seq<Option<Range>>): seq<Output>
    requires |found| == |marks|
  {
    if marks == [] then []
    else
      var n := |marks| - 1;
      Sent(hasHandler, marks[..n], found[..n]) + (if hasHandler then [Event(marks[n])] else [])
      + if found[n].Some? then [Highlight(found[n].value)] else []
  }

  /** From p to q some marks have been spoken, each at the position that the one before has left. */
  ghost predicate Course(s: Setting, marks: seq<Mark>, p: Progress, q: Progress,
                         positions: seq<nat>, found: seq<Option<Range>>) {
    && p.nextMark <= q.nextMark <= |marks| && |found| == q.nextMark - p.nextMark && |positions| == |found| + 1
    && positions[0] == p.textPosition && positions[|found|] == q.textPosition
    && (forall i :: 0 <= i < |found| ==>
          Spoken(s, marks[p.nextMark + i], positions[i], found[i], positions[i + 1]))
    && q.sent == p.sent + Sent(s.hasHandler, marks[p.nextMark..q.nextMark], found)
  }

  /** Exactly the marks that are due have been spoken. */
  ghost predicate Updated(s: Setting, marks: seq<Mark>, time: nat, p: Progress, q: Progress) {
    && (exists positions, found :: Course(s, marks, p, q, positions, found))
    && (forall i :: p.nextMark <= i < q.nextMark <= |marks| ==> marks[i].time <= time)
    && (q.nextMark < |marks| ==> marks[q.nextMark].time > time)
  }

  lemma FindIsFirstAt(text: string, pattern: string, start: nat)
    ensures match Find(text, pattern, start)
            case None => Missing(text, pattern, start)
            case Some(k) => FirstAt(text, pattern, start, k)
  {
    FindIsFirst(text, pattern, start);
  }

  lemma {:induction false} FirstIsFoundFirst(text: string, value: string, pieces: seq<Piece>, start: nat)
    requires forall p :: p in pieces ==> p.from < p.to <= |value|
    ensures var patterns := seq(|pieces|, i requires 0 <= i < |pieces| => value[..pieces[i].to - pieces[i].from]);
            FoundFirst(text, patterns, start, First(text, value, pieces, start, false))
  {
    hide Find, Missing, FirstAt;
    if pieces != [] {
      var patterns := seq(|pieces|, i requires 0 <= i < |pieces| => value[..pieces[i].to - pieces[i].from]);
      var rest := seq(|pieces| - 1,
          i requires 0 <= i < |pieces| - 1 => value[..pieces[1..][i].to - pieces[1..][i].from]);
      assert forall i :: 0 <= i < |rest| ==> rest[i] == patterns[i + 1];
      FindIsFirstAt(text, patterns[0], start);
      FirstIsFoundFirst(text, value, pieces[1..], start);
      var found := First(text, value, pieces, start, false);
      if Find(text, patterns[0], start).None? {
        assert found == First(text, value, pieces[1..], start, false);
        OneMorePattern(text, patterns[0], rest, start, found);
        assert patterns == [patterns[0]] + rest;
      }
    }
  }

  lemma OneMorePattern(text: string, pattern: string, rest: seq<string>, position: nat, found: Option<Range>)
    requires Missing(text, pattern, position) && FoundFirst(text, rest, position, found)
    ensures FoundFirst(text, [pattern] + rest, position, found)
  {
    hide Missing, FirstAt, OccursAt;
    if found.Some? {
      var r := found.value;
      var j :| 0 <= j < |rest| && r.upper + 1 == r.lower + |rest[j]| && FirstAt(text, rest[j], position, r.lower)
               && forall i :: 0 <= i < j ==> Missing(text, rest[i], position);
      MissingBefore(text, pattern, rest, position, j);
      assert ([pattern] + rest)[j + 1] == rest[j];
    } else {
      MissingBefore(text, pattern, rest, position, |rest|);
    }
  }

  lemma MissingBefore(text: string, pattern: string, rest: seq<string>, position: nat, n: nat)
    requires n <= |rest| && Missing(text, pattern, position)
    requires forall i :: 0 <= i < n ==> Missing(text, rest[i], position)
    ensures forall i :: 0 <= i < n + 1 ==> Missing(text, ([pattern] + rest)[i], position)
  {
    hide Missing;
    forall i | 0 <= i < n + 1 ensures Missing(text, ([pattern] + rest)[i], position) {
      if i > 0 { assert ([pattern] + rest)[i] == rest[i - 1]; }
    }
  }

  /** One mark. */
  lemma TakeIsSpoken(s: Setting, m: Mark, p: Progress) returns (found: Option<Range>)
    ensures var q := Take(s, m, p);
            && Spoken(s, m, p.textPosition, found, q.textPosition) && q.nextMark == p.nextMark + 1
            && q.sent == p.sent + Sent(s.hasHandler, [m], [found])
  {
    hide FoundFirst, Match, Patterns;
    var value := s.toLower(m.value);
    MatchIsFirst(s.text, value, 0, p.textPosition);
    WordIsFoundFirst(s.text, value, p.textPosition);
    found := if Speaks(s, m, p.textPosition) then Match(s.text, value, 0, p.textPosition) else None;
    assert Sent(s.hasHandler, [m][..0], [found][..0]) == [];
  }

  lemma WordIsFoundFirst(text: string, value: string, start: nat)
    ensures FoundFirst(text, Patterns(value), start, Match(text, value, 0, start))
  {
    MatchIsFirst(text, value, 0, start);
    FirstIsFoundFirst(text, value, Pieces(value, 0), start);
  }

  /** A word without a hyphen is highlighted where it first occurs; if it does not occur, nothing is. */
  lemma WholeWordIsHighlighted(s: Setting, m: Mark, position: nat, found: Option<Range>, next: nat)
    requires Spoken(s, m, position, found, next) && m.kind.Word? && m.value != "" && m.value[0] != '<'
    requires position < |s.text| && s.toLower(m.value) != "" && '-' !in s.toLower(m.value)
    ensures var w := s.toLower(m.value);
            match found
            case None => next == position && forall k :: position <= k ==> !OccursAt(s.text, w, k)
            case Some(r) =>
              && position <= r.lower && OccursAt(s.text, w, r.lower) && r.upper == r.lower + |w| - 1
              && next == r.lower + |w| && forall k :: position <= k < r.lower ==> !OccursAt(s.text, w, k)
  {
    var w := s.toLower(m.value);
    assert Pieces(w, 0) == [Piece(0, |w|)];
    assert w[..|w|] == w && Patterns(w) == [w] && Patterns(w)[0] == w;
    if found.None? { assert Missing(s.text, Patterns(w)[0], position); }
  }

  lemma CourseBegins(s: Setting, marks: seq<Mark>, p: Progress, p1: Progress, q: Progress, first: Option<Range>,
                     positions: seq<nat>, found: seq<Option<Range>>)
    requires p.nextMark < |marks| && p1.nextMark == p.nextMark + 1 && Course(s, marks, p1, q, positions, found)
    requires Spoken(s, marks[p.nextMark], p.textPosition, first, p1.textPosition)
    requires p1.sent == p.sent + Sent(s.hasHandler, [marks[p.nextMark]], [first])
    ensures Course(s, marks, p, q, [p.textPosition] + positions, [first] + found)
  {
    hide Spoken;
    var more, all := marks[p1.nextMark..q.nextMark], marks[p.nextMark..q.nextMark];
    assert all == [marks[p.nextMark]] + more;
    SentOfBoth(s.hasHandler, [marks[p.nextMark]], more, [first], found);
    assert q.sent == p.sent + (Sent(s.hasHandler, [marks[p.nextMark]], [first]) + Sent(s.hasHandler, more, found));
    forall i | 0 <= i < |found| + 1
      ensures Spoken(s, marks[p.nextMark + i], ([p.textPosition] + positions)[i], ([first] + found)[i],
                     ([p.textPosition] + positions)[i + 1])
    {
      if i > 0 {
        assert Spoken(s, marks[p1.nextMark + (i - 1)], positions[i - 1], found[i - 1], positions[i - 1 + 1]);
      }
    }
  }

  /** What the last of some marks sends. */
  function SentLast(hasHandler: bool, mark: Mark, found: Option<Range>): seq<Output> {
    (if hasHandler then [Event(mark)] else []) + if found.Some? then [Highlight(found.value)] else []
  }

  lemma OneMoreMark(hasHandler: bool, marks: seq<Mark>, found: seq<Option<Range>>)
    requires |found| == |marks| > 0
    ensures var n := |marks| - 1;
            Sent(hasHandler, marks, found)
            == Sent(hasHandler, marks[..n], found[..n]) + SentLast(hasHandler, marks[n], found[n])
  {
  }

  lemma {:induction false} SentOfBoth(hasHandler: bool, one: seq<Mark>, two: seq<Mark>,
                                      found1: seq<Option<Range>>, found2: seq<Option<Range>>)
    requires |found1| == |one| && |found2| == |two|
    ensures Sent(hasHandler, one + two, found1 + found2)
              == Sent(hasHandler, one, found1) + Sent(hasHandler, two, found2)
    decreases |two|
  {
    hide SentLast;
    if two == [] {
      assert one + two == one && found1 + found2 == found1;
    } else {
      var n := |two| - 1;
      assert (one + two)[..|one| + n] == one + two[..n] && (found1 + found2)[..|one| + n] == found1 + found2[..n];
      SentOfBoth(hasHandler, one, two[..n], found1, found2[..n]);
      assert (one + two)[|one| + n] == two[n] && (found1 + found2)[|one| + n] == found2[n];
      OneMoreMark(hasHandler, one + two, found1 + found2);
      OneMoreMark(hasHandler, two, found2);
    }
  }

  /** What an update does, mark by mark. */
  lemma {:induction false} ConsumeIsCourse(s: Setting, marks: seq<Mark>, time: nat, p: Progress)
    returns (positions: seq<nat>, found: seq<Option<Range>>)
    requires p.nextMark <= |marks|
    ensures Course(s, marks, p, Consume(s, marks, time, p), positions, found)
    decreases |marks| - p.nextMark
  {
    hide Spoken, Take;
    if p.nextMark < |marks| && marks[p.nextMark].time <= time {
      var m := marks[p.nextMark];
      var first := TakeIsSpoken(s, m, p);
      positions, found := ConsumeIsCourse(s, marks, time, Take(s, m, p));
      CourseBegins(s, marks, p, Take(s, m, p), Consume(s, marks, time, p), first, positions, found);
      positions, found := [p.textPosition] + positions, [first] + found;
    } else {
      positions, found := [p.textPosition], [];
      assert p.sent == p.sent + Sent(s.hasHandler, marks[p.nextMark..p.nextMark], []);
    }
  }

  lemma ConsumeIsUpdated(s: Setting, marks: seq<Mark>, time: nat, p: Progress)
    requires p.nextMark <= |marks|
    ensures Updated(s, marks, time, p, Consume(s, marks, time, p))
  {
    var positions, found := ConsumeIsCourse(s, marks, time, p);
    ConsumesLongestPrefix(s, marks, time, p);
  }

  /**
   * What a whole run has sent: the highlights are those of its consumed marks, in order, each where the last one ended.
   */
  lemma RunIsCourse(s: Setting, steps: seq<Step>, time: nat) returns (positions: seq<nat>, found: seq<Option<Range>>)
    requires Forward(steps, time)
    ensures Course(s, Arrived(steps), START, Play(s, steps + [Update(time)]), positions, found) && positions[0] == 0
    ensures |found| == Play(s, steps + [Update(time)]).nextMark
    ensures Highlights(Play(s, steps + [Update(time)]).sent) == Ranges(found)
  {
    RunIsOneUpdate(s, steps, time);
    positions, found := ConsumeIsCourse(s, Arrived(steps), time, START);
    var marks := Arrived(steps)[0..|found|];
    HighlightsOfSent(s.hasHandler, marks, found);
    assert [] + Sent(s.hasHandler, marks, found) == Sent(s.hasHandler, marks, found);
  }

  /** The ranges among these, in order. */
  function Ranges(found: seq<Option<Range>>): seq<Range> {
    if found == [] then []
    else Ranges(found[..|found| - 1]) + if found[|found| - 1].Some? then [found[|found| - 1].value] else []
  }

  lemma {:induction false} HighlightsOfSent(hasHandler: bool, marks: seq<Mark>, found: seq<Option<Range>>)
    requires |found| == |marks|
    ensures Highlights(Sent(hasHandler, marks, found)) == Ranges(found)
    ensures Events(Sent(hasHandler, marks, found)) == if hasHandler then marks else []
  {
    if marks != [] {
      var n := |marks| - 1;
      HighlightsOfSent(hasHandler, marks[..n], found[..n]);
      OneMoreMark(hasHandler, marks, found);
      OutputsOfMark(Sent(hasHandler, marks[..n], found[..n]), hasHandler, marks[n], found[n]);
      assert marks == marks[..n] + [marks[n]];
    }
  }

  lemma OutputsOfMark(sent: seq<Output>, hasHandler: bool, mark: Mark, found: Option<Range>)
    ensures var more := sent + SentLast(hasHandler, mark, found);
            && Highlights(more) == Highlights(sent) + (if found.Some? then [found.value] else [])
            && Events(more) == Events(sent) + if hasHandler then [mark] else []
  {
    hide Highlights, Events;
    var first := if hasHandler then sent + [Event(mark)] else sent;
    OneMoreOutput(sent, Event(mark));
    if found.Some? {
      OneMoreOutput(first, Highlight(found.value));
      assert sent + SentLast(hasHandler, mark, found) == first + [Highlight(found.value)];
    } else {
      assert sent + SentLast(hasHandler, mark, found) == first;
    }
  }

  // ----- the action's own loops -----

  class SpeakItem {
    const setting: Setting
    var speechMarks: seq<Mark>
    var nextMark: nat
    var textPosition: nat
    var sent: seq<Output>

    ghost predicate Valid()
      reads this
    {
      nextMark <= |speechMarks|
    }

    constructor (s: Setting)
      ensures Valid() && setting == s && State() == START && speechMarks == []
    {
      setting := s;
      speechMarks, nextMark, textPosition, sent := [], 0, 0, [];
    }

    function State(): Progress
      reads this
    {
      Progress(nextMark, textPosition, sent)
    }

    method OnSpeechMarks(marks: seq<Mark>)
      requires Valid()
      modifies this
      ensures Valid()
      ensures speechMarks == old(speechMarks) + marks && State() == old(State())
    {
      speechMarks := speechMarks + marks;
    }

    /** The loop over the hyphens of one word: the state changes only where it breaks off. */
    method MatchWord(value: string) returns (matched: bool)
      modifies this
      ensures speechMarks == old(speechMarks) && nextMark == old(nextMark)
      ensures var r := Match(setting.text, value, 0, old(textPosition));
              if r.Some? then textPosition == r.value.upper + 1 && sent == old(sent) + [Highlight(r.value)]
              else textPosition == old(textPosition) && sent == old(sent)
    {
      hide Match, Find, Hyphen;
      var pos := 0;
      var more := true;
      matched := false;
      ghost var result := Match(setting.text, value, 0, textPosition);
      while more
        invariant pos <= |value| && speechMarks == old(speechMarks) && nextMark == old(nextMark)
        invariant textPosition == old(textPosition) && sent == old(sent)
        invariant result == if more then Match(setting.text, value, pos, textPosition) else None
        decreases more, |value| - pos
      {
        MatchStep(setting.text, value, pos, textPosition);
        var offset := Hyphen(value, pos);
        var count := (if offset.Some? then offset.value else |value|) - pos;
        if count != 0 {
          var sourceOffset := Find(setting.text, value[..count], textPosition);
          if sourceOffset.Some? {
            textPosition := sourceOffset.value + count;
            sent := sent + [Highlight(Range(sourceOffset.value, textPosition - 1))];
            matched := true;
            break;
          }
        }
        if offset.Some? {
          pos := offset.value + 1;
        } else {
          more := false;
        }
      }
    }

    method UpdateMarks(currentTime: nat)
      requires Valid()
      modifies this
      ensures Valid() && speechMarks == old(speechMarks)
      ensures Updated(setting, speechMarks, currentTime, old(State()), State())
      ensures State() == Consume(setting, speechMarks, currentTime, old(State()))
    {
      ConsumeIsUpdated(setting, speechMarks, currentTime, State());
      if speechMarks == [] {
        return;
      }
      var markLen := |speechMarks|;
      while nextMark < markLen
        invariant Valid() && speechMarks == old(speechMarks) && markLen == |speechMarks|
        invariant Consume(setting, speechMarks, currentTime, State())
                  == Consume(setting, speechMarks, currentTime, old(State()))
        decreases markLen - nextMark
      {
        var mark := speechMarks[nextMark];
        if mark.time > currentTime {
          return;
        }
        ghost var before := State();
        if setting.hasHandler {
          sent := sent + [Event(mark)];
        }
        if mark.kind.Word? && mark.value != "" && mark.value[0] != '<' {
          if setting.text != "" && textPosition < |setting.text| {
            var _ := MatchWord(setting.toLower(mark.value));
          }
        }
        nextMark := nextMark + 1;
        assert State() == Take(setting, mark, before);
      }
    }
  }
}
