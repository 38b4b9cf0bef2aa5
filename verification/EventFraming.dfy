/** Requests on a shared event connection (src/cli/gnoblinctl-client.c): whose line is whose, and what is left for
    later. */
module EventFraming {
  newtype Byte = b: int | 0 <= b < 256
  type Bytes = seq<Byte>

  const NEWLINE: Byte := 10
  const NUL: Byte := 0
  const LIMIT: nat := 4 * 1024 * 1024

  /** What a line is to the request: not an object, somebody else's, or its own answer in one of three shapes. */
  datatype Kind = Invalid | Other | Reply | Rejection | BadReply

  /** What a turn of the read loop gets from the socket. After the last turn the deadline has passed. */
  datatype Turn = Failed | Closed | Chunk(bytes: Bytes)

  datatype Outcome = Inactive | SendFailed | TimedOut | TooLarge | ReadFailed | Disconnected | Answered(kind: Kind)

  /** `read` is what came from the socket; `pending` is what the subscription keeps. */
  datatype Result = Result(outcome: Outcome, pending: Bytes, read: Bytes)

  function FirstAt(s: Bytes, x: Byte, i: nat): (r: nat)
    requires i <= |s|
    ensures i <= r <= |s|
    decreases |s| - i
  {
    if i == |s| || s[i] == x then i else FirstAt(s, x, i + 1)
  }

  lemma {:induction false} FirstAtIsFirst(s: Bytes, x: Byte, i: nat)
    requires i <= |s|
    ensures x !in s[i..FirstAt(s, x, i)]
    ensures FirstAt(s, x, i) < |s| ==> s[FirstAt(s, x, i)] == x
    decreases |s| - i
  {
    if i < |s| && s[i] != x {
      FirstAtIsFirst(s, x, i + 1);
      assert s[i..FirstAt(s, x, i)] == [s[i]] + s[i + 1..FirstAt(s, x, i)];
    }
  }

  /** A line as a C string, which ends at its first NUL. */
  function CString(line: Bytes): Bytes {
    line[..FirstAt(line, NUL, 0)]
  }

  /** What `%s\n` prints of a line. */
  function Printed(line: Bytes): Bytes {
    CString(line) + [NEWLINE]
  }

  // The complete lines of a buffer, and what follows the last newline.

  datatype Lines = Last(rest: Bytes) | Line(line: Bytes, next: Lines)

  function Split(s: Bytes): Lines
    decreases |s|
  {
    var end := FirstAt(s, NEWLINE, 0);
    if end == |s| then Last(s) else Line(s[..end], Split(s[end + 1..]))
  }

  function Join(lines: Lines): Bytes {
    match lines
    case Last(rest) => rest
    case Line(line, next) => line + [NEWLINE] + Join(next)
  }

  lemma {:induction false} SplitJoins(s: Bytes)
    ensures Join(Split(s)) == s
    decreases |s|
  {
    var end := FirstAt(s, NEWLINE, 0);
    FirstAtIsFirst(s, NEWLINE, 0);
    if end < |s| {
      SplitJoins(s[end + 1..]);
      assert s == s[..end] + [NEWLINE] + s[end + 1..];
    }
  }

  predicate AreLines(lines: Lines) {
    match lines
    case Last(rest) => NEWLINE !in rest
    case Line(line, next) => NEWLINE !in line && AreLines(next)
  }

  lemma {:induction false} SplitIsLines(s: Bytes)
    ensures AreLines(Split(s))
    decreases |s|
  {
    var end := FirstAt(s, NEWLINE, 0);
    FirstAtIsFirst(s, NEWLINE, 0);
    assert s[0..end] == s[..end];
    if end < |s| {
      SplitIsLines(s[end + 1..]);
    } else {
      assert s[..end] == s;
    }
  }

  function Glue(lines: Lines, more: Bytes): Lines {
    match lines
    case Last(rest) => Split(rest + more)
    case Line(line, next) => Line(line, Glue(next, more))
  }

  /** Complete lines stay what they are, whatever comes after them. */
  lemma {:induction false} SplitGlues(s: Bytes, more: Bytes)
    ensures Split(s + more) == Glue(Split(s), more)
    decreases |s|
  {
    var end := FirstAt(s, NEWLINE, 0);
    if end < |s| {
      FirstAtPrefix(s, more, NEWLINE, 0);
      SplitGlues(s[end + 1..], more);
      CutBefore(s, more, end);
      SplitLine(s + more, end);
    }
  }

  lemma CutBefore(s: Bytes, more: Bytes, end: nat)
    requires end < |s|
    ensures (s + more)[..end] == s[..end] && (s + more)[end + 1..] == s[end + 1..] + more
  {
  }

  lemma SplitLine(s: Bytes, end: nat)
    requires end == FirstAt(s, NEWLINE, 0) < |s|
    ensures Split(s) == Line(s[..end], Split(s[end + 1..]))
  {
  }

  lemma {:induction false} FirstAtPrefix(s: Bytes, more: Bytes, x: Byte, i: nat)
    requires i <= |s| && FirstAt(s, x, i) < |s|
    ensures FirstAt(s + more, x, i) == FirstAt(s, x, i)
    decreases |s| - i
  {
    if s[i] != x {
      FirstAtPrefix(s, more, x, i + 1);
    }
  }

  // One pass over the lines, up to the first one that settles the call.

  function KindOf(classify: Bytes -> Kind, line: Bytes): Kind {
    classify(CString(line))
  }

  function Verdict(classify: Bytes -> Kind, lines: Lines): Kind {
    match lines
    case Last(_) => Other
    case Line(line, next) =>
      if KindOf(classify, line) == Other then Verdict(classify, next) else KindOf(classify, line)
  }

  /** What is printed back to the subscription. */
  function PutBack(classify: Bytes -> Kind, lines: Lines): Bytes {
    match lines
    case Last(_) => []
    case Line(line, next) =>
      match KindOf(classify, line)
      case Other => Printed(line) + PutBack(classify, next)
      case Invalid => Printed(line)
      case _ => []
  }

  /** What is left in the buffer. */
  function After(classify: Bytes -> Kind, lines: Lines): Bytes {
    match lines
    case Last(rest) => rest
    case Line(line, next) => if KindOf(classify, line) == Other then After(classify, next) else Join(next)
  }

  /** The lines that are put back, as they came. */
  function Passed(classify: Bytes -> Kind, lines: Lines): Bytes {
    match lines
    case Last(_) => []
    case Line(line, next) =>
      match KindOf(classify, line)
      case Other => line + [NEWLINE] + Passed(classify, next)
      case Invalid => line + [NEWLINE]
      case _ => []
  }

  /** The line that is taken out: the first one with the id of the request, unless an invalid one comes first. */
  function Own(classify: Bytes -> Kind, lines: Lines): Bytes {
    match lines
    case Last(_) => []
    case Line(line, next) =>
      match KindOf(classify, line)
      case Other => Own(classify, next)
      case Invalid => []
      case _ => line + [NEWLINE]
  }

  predicate IsOwn(kind: Kind) {
    kind != Other && kind != Invalid
  }

  /** A pass splits the stream in order into what it puts back, what it takes out and what it leaves. */
  lemma {:induction false} PassSplits(classify: Bytes -> Kind, lines: Lines)
    ensures Join(lines) == Passed(classify, lines) + Own(classify, lines) + After(classify, lines)
    ensures Own(classify, lines) != [] <==> IsOwn(Verdict(classify, lines))
  {
    match lines
    case Last(_) =>
    case Line(line, next) =>
      if KindOf(classify, line) == Other {
        PassSplits(classify, next);
        Associative(line + [NEWLINE], Passed(classify, next), Own(classify, next), After(classify, next));
      }
  }

  lemma Associative(a: Bytes, b: Bytes, c: Bytes, d: Bytes)
    ensures a + (b + c + d) == (a + b) + c + d
  {
  }

  lemma PrintedIsLine(line: Bytes)
    ensures |Printed(line)| <= |line| + 1
    ensures |Printed(line)| == |line| + 1 <==> NUL !in line
    ensures NUL !in line ==> Printed(line) == line + [NEWLINE]
  {
    var nul := FirstAt(line, NUL, 0);
    FirstAtIsFirst(line, NUL, 0);
    assert line[0..nul] == line[..nul];
    assert nul == |line| ==> line[..nul] == line;
  }

  /** What is put back is what came exactly when no line put back holds a NUL; otherwise it is shorter. */
  lemma {:induction false} PutBackIffNoNul(classify: Bytes -> Kind, lines: Lines)
    ensures |PutBack(classify, lines)| <= |Passed(classify, lines)|
    ensures |PutBack(classify, lines)| == |Passed(classify, lines)| <==> NUL !in Passed(classify, lines)
    ensures NUL !in Passed(classify, lines) ==> PutBack(classify, lines) == Passed(classify, lines)
  {
    if lines.Line? {
      PrintedIsLine(lines.line);
      if KindOf(classify, lines.line) == Other {
        PutBackIffNoNul(classify, lines.next);
      }
    }
  }

  // More bytes after lines that settle nothing: the pass goes on where it stopped.

  lemma {:induction false} VerdictGoesOn(classify: Bytes -> Kind, lines: Lines, more: Bytes)
    requires Verdict(classify, lines) == Other
    ensures Verdict(classify, Glue(lines, more)) == Verdict(classify, Split(After(classify, lines) + more))
    ensures After(classify, Glue(lines, more)) == After(classify, Split(After(classify, lines) + more))
  {
    if lines.Line? {
      VerdictGoesOn(classify, lines.next, more);
    }
  }

  lemma {:induction false} PutBackGoesOn(classify: Bytes -> Kind, lines: Lines, more: Bytes)
    requires Verdict(classify, lines) == Other
    ensures PutBack(classify, Glue(lines, more)) ==
      PutBack(classify, lines) + PutBack(classify, Split(After(classify, lines) + more))
  {
    var rest := PutBack(classify, Split(After(classify, lines) + more));
    match lines
    case Last(_) => assert [] + rest == rest;
    case Line(line, next) =>
      PutBackGoesOn(classify, next, more);
      assert Printed(line) + (PutBack(classify, next) + rest) == (Printed(line) + PutBack(classify, next)) + rest;
  }

  // The whole call, as a function of the stream: what was pending, and what came from the socket so far.

  /** Nothing settles the call yet, and neither buffer has outgrown the limit. */
  predicate Fits(classify: Bytes -> Kind, lines: Lines) {
    Verdict(classify, lines) == Other && |After(classify, lines)| <= LIMIT && |PutBack(classify, lines)| <= LIMIT
  }

  /** Every turn looks at all of the stream. `more` came in the last turn and was not looked at yet. */
  function Exchange(classify: Bytes -> Kind, stream: Bytes, more: Bytes, turns: seq<Turn>): Result
    decreases |turns|
  {
    var seen, lines := Split(stream), Split(stream + more);
    var put, rest := PutBack(classify, lines), After(classify, lines);
    if |turns| == 0 then Result(TimedOut, PutBack(classify, seen) + (After(classify, seen) + more), [])
    else if Verdict(classify, lines) != Other then Result(Answered(Verdict(classify, lines)), put + rest, [])
    else if !Fits(classify, lines) then Result(TooLarge, put + rest, [])
    else
      match turns[0]
      case Failed => Result(ReadFailed, put + rest, [])
      case Closed => Result(Disconnected, put + rest, [])
      case Chunk(bytes) =>
        var r := Exchange(classify, stream + more, bytes, turns[1..]);
        r.(read := bytes + r.read)
  }

  /** `live` is false without a connection, `sent` when the request could not be written. */
  function Call(classify: Bytes -> Kind, live: bool, sent: bool, pending: Bytes, turns: seq<Turn>): Result {
    if !live then Result(Inactive, pending, [])
    else if !sent then Result(SendFailed, pending, [])
    else Exchange(classify, [], pending, turns)
  }

  /** The lines `seen` were passed over and the rest of the stream was left, or came too late to be looked at. */
  ghost predicate Accounts(classify: Bytes -> Kind, stream: Bytes, outcome: Outcome, pending: Bytes, seen: Lines,
                           late: Bytes) {
    && stream == Join(seen) + late
    && pending == PutBack(classify, seen) + (After(classify, seen) + late)
    && AreLines(seen)
    && (if outcome.Answered? then Verdict(classify, seen) == outcome.kind != Other
        else Verdict(classify, seen) == Other)
    && (outcome != TimedOut ==> late == [] && seen == Split(stream))
  }

  ghost predicate Accounted(classify: Bytes -> Kind, stream: Bytes, outcome: Outcome, pending: Bytes) {
    exists seen, late :: Accounts(classify, stream, outcome, pending, seen, late)
  }

  lemma AccountedNow(classify: Bytes -> Kind, stream: Bytes, outcome: Outcome, more: Bytes)
    requires var v := Verdict(classify, Split(stream));
      if outcome.Answered? then outcome.kind == v != Other else v == Other
    requires outcome != TimedOut ==> more == []
    ensures var lines := Split(stream);
      Accounted(classify, stream + more, outcome, PutBack(classify, lines) + (After(classify, lines) + more))
  {
    var lines := Split(stream);
    SplitJoins(stream);
    SplitIsLines(stream);
    assert more == [] ==> stream + more == stream;
    assert Accounts(classify, stream + more, outcome, PutBack(classify, lines) + (After(classify, lines) + more),
      lines, more);
  }

  lemma {:induction false} ExchangeAccounts(classify: Bytes -> Kind, stream: Bytes, more: Bytes, turns: seq<Turn>)
    requires Verdict(classify, Split(stream)) == Other
    ensures var r := Exchange(classify, stream, more, turns);
      Accounted(classify, stream + more + r.read, r.outcome, r.pending)
    decreases |turns|
  {
    var r := Exchange(classify, stream, more, turns);
    var lines := Split(stream + more);
    if |turns| == 0 {
      AccountedNow(classify, stream, TimedOut, more);
      assert stream + more + [] == stream + more;
    } else if Fits(classify, lines) && turns[0].Chunk? {
      var bytes := turns[0].bytes;
      ExchangeAccounts(classify, stream + more, bytes, turns[1..]);
      var r' := Exchange(classify, stream + more, bytes, turns[1..]);
      assert stream + more + (bytes + r'.read) == stream + more + bytes + r'.read;
    } else {
      AccountedNow(classify, stream + more, r.outcome, []);
      assert After(classify, lines) + [] == After(classify, lines);
      assert stream + more + r.read == stream + more + [];
    }
  }

  lemma CallIsAccounted(classify: Bytes -> Kind, pending: Bytes, turns: seq<Turn>)
    ensures var r := Call(classify, true, true, pending, turns);
      Accounted(classify, pending + r.read, r.outcome, r.pending)
  {
    ExchangeAccounts(classify, [], pending, turns);
    assert [] + pending == pending;
  }

  // The theorems about the call.

  /** Of the stream, `own` is the first line that carries the id of the request; the lines before it are others'. */
  ghost predicate OwnIsFirst(classify: Bytes -> Kind, before: Bytes, own: Bytes, kind: Kind) {
    && Verdict(classify, Split(before)) == Other && After(classify, Split(before)) == []
    && |own| > 0 && own[|own| - 1] == NEWLINE && NEWLINE !in own[..|own| - 1]
    && KindOf(classify, own[..|own| - 1]) == kind
  }

  lemma {:induction false} SplitOne(line: Bytes, rest: Bytes)
    requires NEWLINE !in line
    ensures Split(line + [NEWLINE] + rest) == Line(line, Split(rest))
  {
    var s := line + [NEWLINE] + rest;
    FirstAtIsFirst(s, NEWLINE, 0);
    var end := FirstAt(s, NEWLINE, 0);
    assert s[|line|] == NEWLINE;
    assert end <= |line| ==> s[0..end] == line[..end];
    assert end == |line|;
    SplitLine(s, end);
    assert s[..end] == line && s[end + 1..] == rest;
  }

  lemma {:induction false} PassedIsOthers(classify: Bytes -> Kind, lines: Lines)
    requires AreLines(lines) && IsOwn(Verdict(classify, lines))
    ensures OwnIsFirst(classify, Passed(classify, lines), Own(classify, lines), Verdict(classify, lines))
  {
    if KindOf(classify, lines.line) == Other {
      PassedIsOthers(classify, lines.next);
      SplitOne(lines.line, Passed(classify, lines.next));
    } else {
      assert (lines.line + [NEWLINE])[..|lines.line|] == lines.line;
    }
  }

  /** `pending` is the stream without its own line. */
  ghost predicate TakesOut(classify: Bytes -> Kind, stream: Bytes, pending: Bytes, kind: Kind, own: Bytes, n: nat) {
    && n + |own| <= |stream| && stream[n..n + |own|] == own
    && pending == stream[..n] + stream[n + |own|..]
    && OwnIsFirst(classify, stream[..n], own, kind)
  }

  /** Kept is all of the stream, in order, but the first line of the request itself if that was its answer. */
  ghost predicate Conserves(classify: Bytes -> Kind, stream: Bytes, r: Result) {
    if r.outcome.Answered? && IsOwn(r.outcome.kind) then
      exists own, n :: TakesOut(classify, stream, r.pending, r.outcome.kind, own, n)
    else
      r.pending == stream
  }

  lemma TakenOut(classify: Bytes -> Kind, stream: Bytes, before: Bytes, own: Bytes, after: Bytes, kind: Kind)
    requires stream == before + own + after && OwnIsFirst(classify, before, own, kind)
    ensures TakesOut(classify, stream, before + after, kind, own, |before|)
  {
    assert stream[..|before|] == before && stream[|before| + |own|..] == after;
  }

  lemma AccountedConserves(classify: Bytes -> Kind, stream: Bytes, r: Result)
    requires NUL !in stream && Accounted(classify, stream, r.outcome, r.pending)
    ensures Conserves(classify, stream, r)
  {
    var seen, late :| Accounts(classify, stream, r.outcome, r.pending, seen, late);
    var put, own, rest := Passed(classify, seen), Own(classify, seen), After(classify, seen) + late;
    PassSplits(classify, seen);
    PutBackIffNoNul(classify, seen);
    Regroup(put, own, After(classify, seen), late);
    NulFreePart(put, own + rest, stream);
    if r.outcome.Answered? && IsOwn(r.outcome.kind) {
      PassedIsOthers(classify, seen);
      TakenOut(classify, stream, put, own, rest, r.outcome.kind);
    } else {
      Regroup(put, [], After(classify, seen), late);
    }
  }

  lemma Regroup(a: Bytes, b: Bytes, c: Bytes, d: Bytes)
    ensures (a + b + c) + d == a + b + (c + d) == a + (b + (c + d))
    ensures b == [] ==> a + b + (c + d) == a + (c + d)
  {
  }

  lemma NulFreePart(a: Bytes, b: Bytes, s: Bytes)
    requires s == a + b && NUL !in s
    ensures NUL !in a
  {
    assert forall x :: x in a ==> x in s;
  }

  /** On every way out of the call, of a stream without NULs nothing is lost, repeated or moved. */
  lemma NothingIsLost(classify: Bytes -> Kind, live: bool, sent: bool, pending: Bytes, turns: seq<Turn>)
    requires NUL !in pending + Call(classify, live, sent, pending, turns).read
    ensures var r := Call(classify, live, sent, pending, turns); Conserves(classify, pending + r.read, r)
  {
    var r := Call(classify, live, sent, pending, turns);
    if live && sent {
      CallIsAccounted(classify, pending, turns);
      AccountedConserves(classify, pending + r.read, r);
    } else {
      assert pending + [] == pending;
    }
  }

  /** In general: the call keeps as many bytes as came, but for its own line, exactly when it put no NUL back. */
  lemma LostIffNul(classify: Bytes -> Kind, pending: Bytes, turns: seq<Turn>)
    ensures var r := Call(classify, true, true, pending, turns);
      exists seen, late :: Accounts(classify, pending + r.read, r.outcome, r.pending, seen, late)
        && (|r.pending| + |Own(classify, seen)| == |pending + r.read| <==> NUL !in Passed(classify, seen))
  {
    CallIsAccounted(classify, pending, turns);
    var r := Call(classify, true, true, pending, turns);
    var seen, late :| Accounts(classify, pending + r.read, r.outcome, r.pending, seen, late);
    PassSplits(classify, seen);
    PutBackIffNoNul(classify, seen);
  }

  /** However the same bytes were cut into reads, two calls that did not time out end alike. */
  lemma SplitsDoNotMatter(classify: Bytes -> Kind, pending: Bytes, turns: seq<Turn>, turns': seq<Turn>)
    requires var r := Call(classify, true, true, pending, turns);
      var r' := Call(classify, true, true, pending, turns');
      r.read == r'.read && r.outcome != TimedOut && r'.outcome != TimedOut
    ensures var r := Call(classify, true, true, pending, turns);
      var r' := Call(classify, true, true, pending, turns');
      && r.pending == r'.pending
      && (r.outcome.Answered? <==> r'.outcome.Answered?) && (r.outcome.Answered? ==> r.outcome == r'.outcome)
  {
    CallIsAccounted(classify, pending, turns);
    CallIsAccounted(classify, pending, turns');
  }

  lemma {:induction false} FirstAtUnique(s: Bytes, x: Byte, i: nat, n: nat)
    requires i <= n <= |s| && (forall k :: i <= k < n ==> s[k] != x) && (n < |s| ==> s[n] == x)
    ensures FirstAt(s, x, i) == n
    decreases n - i
  {
    if i < n {
      FirstAtUnique(s, x, i + 1, n);
    }
  }

  /** What a call makes of one line that is not its own and the answer behind it. */
  lemma OneLineAndAnswer(classify: Bytes -> Kind, line: Bytes, own: Bytes)
    requires NEWLINE !in line && NEWLINE !in own && KindOf(classify, line) == Other && KindOf(classify, own) == Reply
    ensures var stream := line + [NEWLINE] + (own + [NEWLINE]);
      Call(classify, true, true, [], [Chunk(stream), Closed]) == Result(Answered(Reply), Printed(line), stream)
  {
    var stream, turns := line + [NEWLINE] + (own + [NEWLINE]), [Chunk(line + [NEWLINE] + (own + [NEWLINE])), Closed];
    var lines := Line(line, Line(own, Last([])));
    SplitOne(line, own + [NEWLINE]);
    SplitOne(own, []);
    assert own + [NEWLINE] + [] == own + [NEWLINE];
    assert Split(stream) == lines && Split([]) == Last([]);
    var answer := lines.next;
    assert Verdict(classify, answer) == Reply && After(classify, answer) == Join(answer.next) == [];
    assert PutBack(classify, answer) == [];
    assert Verdict(classify, lines) == Reply && After(classify, lines) == [];
    assert PutBack(classify, lines) == Printed(line) + [] == Printed(line);
    assert turns[1..] == [Closed] && [] + stream == stream && stream + [] == stream;
    assert Exchange(classify, stream, [], [Closed]).read == Exchange(classify, [], stream, [Closed]).read == [];
  }

  /** For example: an event with a NUL in front of the answer is cut there, and what followed the NUL is gone. */
  lemma LineIsCutAtNul(classify: Bytes -> Kind, a: Bytes, b: Bytes, own: Bytes)
    requires NUL !in a && NEWLINE !in a + b && NUL !in own && NEWLINE !in own
    requires classify(a) == Other && classify(own) == Reply
    ensures var stream := a + [NUL] + b + [NEWLINE] + (own + [NEWLINE]);
      Call(classify, true, true, [], [Chunk(stream), Closed]) == Result(Answered(Reply), a + [NEWLINE], stream)
  {
    var line := a + [NUL] + b;
    FirstAtUnique(line, NUL, 0, |a|);
    FirstAtUnique(own, NUL, 0, |own|);
    assert line[..|a|] == a && own[..|own|] == own;
    OneLineAndAnswer(classify, line, own);
  }

  // The connection itself.

  class Subscription {
    /** There is a connection, and the subscription has not ended. */
    var active: bool
    var pending: Bytes
    /** Its shortcuts live on a connection that all such subscriptions of a client share. */
    const shortcutOwner: bool

    constructor (shortcutOwner: bool)
      ensures active && pending == [] && this.shortcutOwner == shortcutOwner
    {
      active, pending, this.shortcutOwner := true, [], shortcutOwner;
    }

    /** Where a request of this subscription goes. */
    function Transport(useOwner: bool, owner: Subscription?): Subscription? {
      if useOwner && shortcutOwner then owner else this
    }

    /** The inner loop: takes complete lines off `buffer` until one settles the call. */
    method TakeLines(classify: Bytes -> Kind, buffer: Bytes) returns (verdict: Kind, incoming: Bytes)
      modifies `pending
      ensures verdict == Verdict(classify, Split(buffer)) && incoming == After(classify, Split(buffer))
      ensures pending == old(pending) + PutBack(classify, Split(buffer))
    {
      incoming := buffer;
      verdict := Other;
      while FirstAt(incoming, NEWLINE, 0) < |incoming|
        invariant Verdict(classify, Split(buffer)) == Verdict(classify, Split(incoming))
        invariant After(classify, Split(buffer)) == After(classify, Split(incoming))
        invariant old(pending) + PutBack(classify, Split(buffer)) == pending + PutBack(classify, Split(incoming))
        decreases |incoming|
      {
        var end := FirstAt(incoming, NEWLINE, 0);
        var line := incoming[..end];
        ghost var put, next := PutBack(classify, Split(incoming)), Split(incoming[end + 1..]);
        SplitLine(incoming, end);
        SplitJoins(incoming[end + 1..]);
        incoming := incoming[end + 1..];
        var kind := KindOf(classify, line);
        match kind {
          case Invalid =>
            pending := pending + Printed(line);
            verdict := Invalid;
            return;
          case Other =>
            assert pending + (Printed(line) + PutBack(classify, next))
              == pending + Printed(line) + PutBack(classify, next);
            pending := pending + Printed(line);
          case _ =>
            assert pending + [] == pending;
            verdict := kind;
            return;
        }
      }
      assert pending + [] == pending;
    }

    /** `turns` are what the socket does until the deadline. */
    method Request(classify: Bytes -> Kind, sent: bool, turns: seq<Turn>) returns (outcome: Outcome, ghost read: Bytes)
      modifies `pending
      ensures Result(outcome, pending, read) == Call(classify, active, sent, old(pending), turns)
    {
      read := [];
      if !active {
        return Inactive, read;
      }
      var incoming := pending;
      pending := [];
      if !sent {
        pending := pending + incoming;
        return SendFailed, read;
      }
      ghost var stream, more := [], incoming;
      outcome := TimedOut;
      var i := 0;
      while i < |turns|
        invariant i <= |turns| && outcome == TimedOut
        invariant Verdict(classify, Split(stream)) == Other
        invariant pending == PutBack(classify, Split(stream)) && incoming == After(classify, Split(stream)) + more
        invariant var r := Exchange(classify, stream, more, turns[i..]);
          Exchange(classify, [], old(pending), turns) == r.(read := read + r.read)
      {
        var kind;
        SplitGlues(stream, more);
        VerdictGoesOn(classify, Split(stream), more);
        PutBackGoesOn(classify, Split(stream), more);
        kind, incoming := TakeLines(classify, incoming);
        if kind != Other {
          outcome := Answered(kind);
          break;
        }
        if |incoming| > LIMIT || |pending| > LIMIT {
          outcome := TooLarge;
          break;
        }
        match turns[i] {
          case Failed =>
            outcome := ReadFailed;
            break;
          case Closed =>
            outcome := Disconnected;
            break;
          case Chunk(bytes) =>
            assert turns[i..][1..] == turns[i + 1..];
            incoming := incoming + bytes;
            stream, more, read := stream + more, bytes, read + bytes;
        }
        i := i + 1;
      }
      pending := pending + incoming;
    }

    /** A request of this subscription: its bytes are accounted for on the connection that it goes to, and the other
        connection keeps what it has. */
    method CallCompositor(useOwner: bool, owner: Subscription?, classify: Bytes -> Kind, sent: bool, turns: seq<Turn>)
      returns (outcome: Outcome, ghost read: Bytes)
      modifies `pending, (if owner == null then {} else {owner})`pending
      ensures var transport := if useOwner && shortcutOwner then owner else this;
        if !active || transport == null || !transport.active then
          outcome == Inactive && read == [] && pending == old(pending)
          && (owner != null ==> owner.pending == old(owner.pending))
        else
          && Result(outcome, transport.pending, read) == Call(classify, true, sent, old(transport.pending), turns)
          && (transport != this ==> pending == old(pending))
          && (owner != null && transport != owner ==> owner.pending == old(owner.pending))
    {
      read := [];
      if !active {
        return Inactive, read;
      }
      var transport := Transport(useOwner, owner);
      if transport == null || !transport.active {
        return Inactive, read;
      }
      outcome, read := transport.Request(classify, sent, turns);
    }
  }
}
