/**
 Stabilising the successive transcription hypotheses of a sliding window: a word is committed only
 once two consecutive hypotheses agree on it (connector_service/live/agreement.py).
 */
module Agreement {

  datatype Word = Word(text: string, start: real, end: real)

  datatype Tracker = Tracker(committed: seq<Word>, buffer: seq<Word>)

  /** s[n..], empty when n is past the end, as Python slices. */
  function Drop<T>(s: seq<T>, n: nat): seq<T> { if n <= |s| then s[n..] else [] }

  /** How many leading words of the two sequences have the same text. */
  function Agreed(a: seq<Word>, b: seq<Word>): (k: nat)
    ensures k <= |a| && k <= |b|
    ensures forall i :: 0 <= i < k ==> a[i].text == b[i].text
    ensures k < |a| && k < |b| ==> a[k].text != b[k].text
  {
    if a == [] || b == [] || a[0].text != b[0].text then 0 else 1 + Agreed(a[1..], b[1..])
  }

  function Insert(t: Tracker, hypothesis: seq<Word>): Tracker {
    var tail := Drop(hypothesis, |t.committed|);
    var k := Agreed(tail, t.buffer);
    Tracker(t.committed + tail[..k], tail[k..])
  }

  function Finalize(t: Tracker): Tracker {
    Tracker(t.committed + t.buffer, [])
  }

  lemma {:induction false} AgreedIsLongest(a: seq<Word>, b: seq<Word>, k: nat)
    requires k <= |a| && k <= |b| && forall i :: 0 <= i < k ==> a[i].text == b[i].text
    requires k == |a| || k == |b| || a[k].text != b[k].text
    ensures Agreed(a, b) == k
  {
    if k > 0 {
      AgreedIsLongest(a[1..], b[1..], k - 1);
    }
  }

  class LocalAgreement {
    var committed: seq<Word>
    var buffer: seq<Word>

    constructor ()
      ensures Current() == Tracker([], [])
    {
      committed, buffer := [], [];
    }

    function Current(): Tracker
      reads this
    {
      Tracker(committed, buffer)
    }

    method InsertHypothesis(hypothesis: seq<Word>) returns (commit: seq<Word>)
      modifies this
      ensures Current() == Insert(old(Current()), hypothesis)
      ensures committed == old(committed) + commit
    {
      var tail := Drop(hypothesis, |committed|);
      commit := [];
      var i := 0;
      while i < |tail| && i < |buffer| && tail[i].text == buffer[i].text
        invariant i <= |tail| && i <= |buffer| && commit == tail[..i]
        invariant forall j :: 0 <= j < i ==> tail[j].text == buffer[j].text
      {
        commit := commit + [tail[i]];
        i := i + 1;
      }
      AgreedIsLongest(tail, buffer, i);
      committed := committed + commit;
      buffer := tail[|commit|..];
    }

    /** What to display beside the committed words: with as many words of the hypothesis as are committed
        before it, it makes up the hypothesis. */
    method Partial(hypothesis: seq<Word>) returns (unstable: seq<Word>)
      ensures |unstable| == if |hypothesis| <= |committed| then 0 else |hypothesis| - |committed|
      ensures |committed| <= |hypothesis| ==> hypothesis[..|committed|] + unstable == hypothesis
    {
      unstable := Drop(hypothesis, |committed|);
    }

    method FinalizeTurn() returns (rest: seq<Word>)
      modifies this
      ensures Current() == Finalize(old(Current()))
      ensures rest == old(buffer)
    {
      rest := buffer;
      committed := committed + rest;
      buffer := [];
    }
  }

  // ---------------------------------------------------------------------------
  // Histories
  // ---------------------------------------------------------------------------

  datatype Call = Hypothesis(words: seq<Word>) | EndOfTurn

  function After(calls: seq<Call>): Tracker {
    if calls == [] then Tracker([], []) else
      var t, last := After(calls[..|calls| - 1]), calls[|calls| - 1];
      match last
      case Hypothesis(words) => Insert(t, words)
      case EndOfTurn => Finalize(t)
  }

  /** Committed words are never taken back or changed. */
  lemma {:induction false} CommittedOnlyGrows(calls: seq<Call>, m: nat, n: nat)
    requires m <= n <= |calls|
    ensures After(calls[..m]).committed <= After(calls[..n]).committed
  {
    if m < n {
      assert calls[..n][..n - 1] == calls[..n - 1];
      CommittedOnlyGrows(calls, m, n - 1);
    }
  }

  /** After an insertion the buffer is what the hypothesis says beyond the committed words, which is
      also what `partial` displays; after a turn ends it is empty. */
  lemma BufferIsUnstableTail(calls: seq<Call>)
    requires calls != []
    ensures var t := After(calls);
            t.buffer == match calls[|calls| - 1]
                        case Hypothesis(words) => Drop(words, |t.committed|)
                        case EndOfTurn => []
  {
  }

  /** Call p promoted word i by ending a turn. */
  ghost predicate PromotedAt(calls: seq<Call>, p: nat, i: nat) {
    && p < |calls| && calls[p].EndOfTurn?
    && |After(calls[..p]).committed| <= i < |After(calls[..p + 1]).committed|
  }

  /** Calls p - 1 and p are hypotheses that have the same text at index i, and w is the later word. */
  ghost predicate ConfirmedAt(calls: seq<Call>, p: nat, i: nat, w: Word) {
    && 0 < p < |calls| && calls[p].Hypothesis? && calls[p - 1].Hypothesis?
    && i < |calls[p].words| && i < |calls[p - 1].words|
    && calls[p].words[i].text == calls[p - 1].words[i].text
    && calls[p].words[i] == w
  }

  /** What one insertion commits beyond what was committed, agrees with the previous hypothesis. */
  lemma NewlyCommittedAgrees(t: Tracker, previous: seq<Word>, words: seq<Word>, i: nat)
    requires t.buffer == Drop(previous, |t.committed|)
    requires |t.committed| <= i < |Insert(t, words).committed|
    ensures i < |words| && i < |previous|
    ensures words[i].text == previous[i].text && Insert(t, words).committed[i] == words[i]
  {
    var n := |t.committed|;
    var tail := Drop(words, n);
    assert tail[i - n] == words[i] && t.buffer[i - n] == previous[i];
  }

  lemma HypothesisExplains(calls: seq<Call>, i: nat)
    requires calls != [] && calls[|calls| - 1].Hypothesis?
    requires |After(calls[..|calls| - 1]).committed| <= i < |After(calls).committed|
    ensures ConfirmedAt(calls, |calls| - 1, i, After(calls).committed[i])
  {
    var n := |calls| - 1;
    var before := calls[..n];
    assert n == 0 ==> After(before).buffer == [];
    BufferIsUnstableTail(before);
    assert before[n - 1] == calls[n - 1];
    NewlyCommittedAgrees(After(before), calls[n - 1].words, calls[n].words, i);
  }

  /** The last call is responsible for the words it adds. */
  lemma LastCallExplains(calls: seq<Call>, i: nat)
    requires calls != [] && |After(calls[..|calls| - 1]).committed| <= i < |After(calls).committed|
    ensures PromotedAt(calls, |calls| - 1, i) || ConfirmedAt(calls, |calls| - 1, i, After(calls).committed[i])
  {
    if calls[|calls| - 1].Hypothesis? {
      HypothesisExplains(calls, i);
    } else {
      assert calls[..|calls| - 1 + 1] == calls;
    }
  }

  /** Every committed word was confirmed by two consecutive hypotheses, unless a turn's end promoted it. */
  lemma {:induction false} CommittedMeansAgreed(calls: seq<Call>, i: nat) returns (p: nat)
    requires i < |After(calls).committed|
    ensures PromotedAt(calls, p, i) || ConfirmedAt(calls, p, i, After(calls).committed[i])
  {
    var n := |calls| - 1;
    var before := calls[..n];
    if i < |After(before).committed| {
      p := CommittedMeansAgreed(before, i);
      assert before[..p] == calls[..p] && before[..p + 1] == calls[..p + 1];
      assert After(calls).committed[i] == After(before).committed[i];
    } else {
      p := n;
      LastCallExplains(calls, i);
    }
  }

  lemma AgreedAtLeast(a: seq<Word>, b: seq<Word>, k: nat)
    requires k <= |a| && k <= |b| && forall i :: 0 <= i < k ==> a[i].text == b[i].text
    ensures Agreed(a, b) >= k
  {
  }

  /** Conversely, what two hypotheses in a row agree on beyond the committed words gets committed. */
  lemma AgreedMeansCommitted(t: Tracker, earlier: seq<Word>, later: seq<Word>, j: nat)
    requires j <= |earlier| && j <= |later|
    requires forall i :: |Insert(t, earlier).committed| <= i < j ==> earlier[i].text == later[i].text
    ensures |Insert(Insert(t, earlier), later).committed| >= j
  {
    var once := Insert(t, earlier);
    var n := |once.committed|;
    if n < j {
      var a, b := Drop(later, n), Drop(earlier, n);
      assert once.buffer == b;
      forall i | 0 <= i < j - n ensures a[i].text == b[i].text {
        assert a[i] == later[n + i] && b[i] == earlier[n + i];
      }
      AgreedAtLeast(a, b, j - n);
    }
  }

  /** After an insertion `partial` displays the buffer, and what it displays is what the same hypothesis
      again, or the end of the turn, would commit: no more, no less. */
  lemma PartialIsWhatComesNext(t: Tracker, words: seq<Word>)
    ensures var once := Insert(t, words);
            var displayed := Drop(words, |once.committed|);
            && displayed == once.buffer
            && Insert(once, words) == Tracker(once.committed + displayed, [])
            && Finalize(once) == Tracker(once.committed + displayed, [])
  {
    var once := Insert(t, words);
    var displayed := Drop(words, |once.committed|);
    AgreedIsLongest(displayed, displayed, |displayed|);
    assert displayed[..|displayed|] == displayed;
  }

  /** A hypothesis repeated at once is committed to its last word: nothing stays in the buffer. */
  lemma RepeatedHypothesisSettles(t: Tracker, words: seq<Word>)
    ensures Insert(Insert(t, words), words).buffer == []
  {
    PartialIsWhatComesNext(t, words);
  }

  /** And no word of it is missing. */
  lemma RepeatedHypothesisIsWhole(t: Tracker, words: seq<Word>)
    ensures |Insert(Insert(t, words), words).committed| == if |t.committed| >= |words| then |t.committed| else |words|
  {
    PartialIsWhatComesNext(t, words);
  }
}
