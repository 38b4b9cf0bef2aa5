/** How a request on a shared connection ends, in terms of the bytes and the turns (src/cli/gnoblinctl-client.c). */
module EventLaws {
  import opened EventFraming

  /** A buffer without a newline settles nothing, and all of it is left. */
  lemma NoLine(classify: Bytes -> Kind, s: Bytes)
    requires 10 !in s
    ensures Verdict(classify, Split(s)) == Other && After(classify, Split(s)) == s && PutBack(classify, Split(s)) == []
  {
    FirstAtUnique(s, NEWLINE, 0, |s|);
  }

  /** The first line is somebody else's and is put back, up to its first NUL, or it settles the call: an invalid line is
      put back as well, and an answer is not. */
  lemma FirstLine(classify: Bytes -> Kind, text: Bytes, cut: Bytes, rest: Bytes)
    requires 10 !in text + cut && 0 !in text && (|cut| > 0 ==> cut[0] == 0)
    ensures var s, kind := text + cut + [10] + rest, classify(text);
      var verdict, left, put :=
        Verdict(classify, Split(s)), After(classify, Split(s)), PutBack(classify, Split(s));
      if kind == Other then
        && verdict == Verdict(classify, Split(rest)) && left == After(classify, Split(rest))
        && put == text + [10] + PutBack(classify, Split(rest))
      else
        verdict == kind && left == rest && put == if kind == Invalid then text + [10] else []
  {
    var line := text + cut;
    FirstAtUnique(line, NUL, 0, |text|);
    assert line[..|text|] == text;
    SplitOne(line, rest);
    SplitJoins(rest);
  }

  /** What the first `n` turns read. */
  function ReadBy(turns: seq<Turn>, n: nat): Bytes
    requires n <= |turns| && forall j :: 0 <= j < n ==> turns[j].Chunk?
  {
    if n == 0 then [] else ReadBy(turns, n - 1) + turns[n - 1].bytes
  }

  /** The stream so far settles nothing, and neither buffer is above 4 MiB. */
  predicate GoesOn(classify: Bytes -> Kind, stream: Bytes) {
    var lines := Split(stream);
    Verdict(classify, lines) == Other && |After(classify, lines)| <= 4194304 && |PutBack(classify, lines)| <= 4194304
  }

  /** The call ends at the first turn at which the stream does not go on or the socket has no more bytes, or when the
      time is over. */
  ghost predicate EndsAt(classify: Bytes -> Kind, stream: Bytes, more: Bytes, turns: seq<Turn>, n: nat, r: Result) {
    && n <= |turns| && (forall j :: 0 <= j < n ==> turns[j].Chunk?)
    && r.read == ReadBy(turns, n)
    && (forall j :: 0 <= j < n ==> GoesOn(classify, stream + more + ReadBy(turns, j)))
    && var all := stream + more + ReadBy(turns, n);
      if n == |turns| then r.outcome == TimedOut
      else if Verdict(classify, Split(all)) != Other then r.outcome == Answered(Verdict(classify, Split(all)))
      else if |After(classify, Split(all))| > 4194304 || |PutBack(classify, Split(all))| > 4194304 then
        r.outcome == TooLarge
      else r.outcome == (if turns[n].Failed? then ReadFailed else Disconnected) && !turns[n].Chunk?
  }

  lemma {:induction false} ReadOneMore(turns: seq<Turn>, n: nat)
    requires n < |turns| && forall j :: 0 <= j <= n ==> turns[j].Chunk?
    ensures ReadBy(turns, n + 1) == turns[0].bytes + ReadBy(turns[1..], n)
  {
    if n > 0 {
      ReadOneMore(turns, n - 1);
      assert turns[1..][n - 1] == turns[n];
      assert turns[0].bytes + (ReadBy(turns[1..], n - 1) + turns[n].bytes)
        == turns[0].bytes + ReadBy(turns[1..], n - 1) + turns[n].bytes;
    } else {
      assert [] + turns[0].bytes == turns[0].bytes + [];
    }
  }

  lemma Chunks(turns: seq<Turn>, m: nat)
    requires |turns| > 0 && turns[0].Chunk? && m < |turns|
    requires forall j :: 0 <= j < m ==> turns[1..][j].Chunk?
    ensures forall j :: 0 <= j <= m ==> turns[j].Chunk?
  {
    forall j | 0 < j <= m ensures turns[j].Chunk? {
      assert turns[1..][j - 1] == turns[j];
    }
  }

  lemma ReadShift(all: Bytes, turns: seq<Turn>, m: nat)
    requires m < |turns| && forall j :: 0 <= j <= m ==> turns[j].Chunk?
    ensures forall j :: 0 <= j < m ==> turns[1..][j].Chunk?
    ensures forall j :: 0 <= j <= m ==> all + ReadBy(turns, j + 1) == all + turns[0].bytes + ReadBy(turns[1..], j)
  {
    forall j | 0 <= j <= m ensures all + ReadBy(turns, j + 1) == all + turns[0].bytes + ReadBy(turns[1..], j) {
      ReadOneMore(turns, j);
      assert all + (turns[0].bytes + ReadBy(turns[1..], j)) == all + turns[0].bytes + ReadBy(turns[1..], j);
    }
  }

  lemma GoesOnLonger(classify: Bytes -> Kind, all: Bytes, turns: seq<Turn>, m: nat)
    requires m < |turns| && forall j :: 0 <= j <= m ==> turns[j].Chunk?
    requires GoesOn(classify, all)
    requires forall j :: 0 <= j < m ==> turns[1..][j].Chunk?
    requires forall j :: 0 <= j < m ==> GoesOn(classify, all + turns[0].bytes + ReadBy(turns[1..], j))
    ensures forall j :: 0 <= j <= m ==> GoesOn(classify, all + ReadBy(turns, j))
  {
    hide GoesOn;
    ReadShift(all, turns, m);
    assert all + [] == all;
    forall j | 0 < j <= m ensures GoesOn(classify, all + ReadBy(turns, j)) {
      assert all + ReadBy(turns, (j - 1) + 1) == all + turns[0].bytes + ReadBy(turns[1..], j - 1);
    }
  }

  lemma EndsLater(classify: Bytes -> Kind, stream: Bytes, more: Bytes, turns: seq<Turn>, m: nat, r: Result)
    requires |turns| > 0 && turns[0].Chunk? && GoesOn(classify, stream + more)
    requires EndsAt(classify, stream + more, turns[0].bytes, turns[1..], m, r)
    ensures EndsAt(classify, stream, more, turns, m + 1, r.(read := turns[0].bytes + r.read))
  {
    hide GoesOn, Verdict, After, PutBack, Split, ReadBy;
    Chunks(turns, m);
    ReadOneMore(turns, m);
    ReadShift(stream + more, turns, m);
    GoesOnLonger(classify, stream + more, turns, m);
    assert m + 1 < |turns| ==> turns[1..][m] == turns[m + 1];
  }

  lemma {:induction false} ExchangeEndsAt(classify: Bytes -> Kind, stream: Bytes, more: Bytes, turns: seq<Turn>)
      returns (n: nat)
    ensures EndsAt(classify, stream, more, turns, n, Exchange(classify, stream, more, turns))
    decreases |turns|
  {
    hide Verdict, After, PutBack, Split;
    assert stream + more + [] == stream + more;
    if |turns| > 0 && Fits(classify, Split(stream + more)) && turns[0].Chunk? {
      var m := ExchangeEndsAt(classify, stream + more, turns[0].bytes, turns[1..]);
      EndsLater(classify, stream, more, turns, m, Exchange(classify, stream + more, turns[0].bytes, turns[1..]));
      n := m + 1;
    } else {
      n := 0;
    }
  }

  /** How every call ends. */
  lemma CallEndsAt(classify: Bytes -> Kind, live: bool, sent: bool, pending: Bytes, turns: seq<Turn>) returns (n: nat)
    ensures var r := Call(classify, live, sent, pending, turns);
      if !live then r == Result(Inactive, pending, [])
      else if !sent then r == Result(SendFailed, pending, [])
      else EndsAt(classify, [], pending, turns, n, r)
  {
    n := ExchangeEndsAt(classify, [], pending, turns);
  }
}
