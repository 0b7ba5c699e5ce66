/** Log entries, their attribute trees, and when two of them count as the same action. */
module LogEntries {
  import opened Common

  /** slog values. Objects and pointers carry an identity, times a zone; neither is compared. */
  datatype Value =
    | Str(s: string) | Int(n: int) | Bool(b: bool) | Float(x: real) | Time(instant: int, zone: string)
    | Any(pointer: int, data: string)
    | LogValuer(pointer: int, resolved: Value)
    | Group(attrs: seq<Attr>)

  datatype Attr = Attr(key: string, value: Value)

  datatype Level = Important | Warning | Info | Verbose | Discord

  datatype Author = Author(id: int, name: string)

  datatype LogEntry = LogEntry(message: string, attrs: seq<Attr>, author: Option<Author>, level: Level)

  /** equalAttrs: lengths, then keys, kinds and values one by one. */
  predicate EqualAttrs(a: seq<Attr>, b: seq<Attr>)
    decreases a
  {
    |a| == |b| && forall i | 0 <= i < |a| :: a[i].key == b[i].key && EqualValue(a[i].value, b[i].value)
  }

  /** One turn of the loop in equalAttrs; values of different kinds are different. */
  predicate EqualValue(a: Value, b: Value)
    decreases a
  {
    match (a, b)
    case (LogValuer(_, x), LogValuer(_, y)) => EqualValue(x, y)
    case (Any(_, x), Any(_, y)) => x == y
    case (Group(x), Group(y)) => EqualAttrs(x, y)
    case (Time(t, _), Time(u, _)) => t == u
    case _ => a == b
  }

  predicate Equal(a: LogEntry, b: LogEntry) {
    && a.message == b.message && a.level == b.level
    && (a.author.None? <==> b.author.None?)
    && (a.author.Some? ==> a.author.value.id == b.author.value.id)
    && EqualAttrs(a.attrs, b.attrs)
  }

  // ---- What the comparison looks at ----

  function ErasedAttrs(a: seq<Attr>): seq<Attr>
    decreases a
  {
    seq(|a|, i requires 0 <= i < |a| => Attr(a[i].key, ErasedValue(a[i].value)))
  }

  /** The value without identities and zones. */
  function ErasedValue(a: Value): Value
    decreases a
  {
    match a
    case LogValuer(_, x) => LogValuer(0, ErasedValue(x))
    case Any(_, x) => Any(0, x)
    case Group(x) => Group(ErasedAttrs(x))
    case Time(t, _) => Time(t, "")
    case _ => a
  }

  function Erased(a: LogEntry): LogEntry {
    var author := if a.author.None? then None else Some(Author(a.author.value.id, ""));
    LogEntry(a.message, ErasedAttrs(a.attrs), author, a.level)
  }

  lemma {:induction false} EqualAttrsIsErasedEquality(a: seq<Attr>, b: seq<Attr>)
    ensures EqualAttrs(a, b) <==> ErasedAttrs(a) == ErasedAttrs(b)
    decreases a
  {
    var x, y := ErasedAttrs(a), ErasedAttrs(b);
    forall i | 0 <= i < |a| && |a| == |b|
      ensures x[i] == y[i] <==> a[i].key == b[i].key && EqualValue(a[i].value, b[i].value)
    {
      EqualValueIsErasedEquality(a[i].value, b[i].value);
    }
    if EqualAttrs(a, b) {
      assert forall i | 0 <= i < |x| :: x[i] == y[i];
    }
  }

  lemma {:induction false} EqualValueIsErasedEquality(a: Value, b: Value)
    ensures EqualValue(a, b) <==> ErasedValue(a) == ErasedValue(b)
    decreases a
  {
    match (a, b) {
      case (LogValuer(_, x), LogValuer(_, y)) => EqualValueIsErasedEquality(x, y);
      case (Group(x), Group(y)) => EqualAttrsIsErasedEquality(x, y);
      case _ =>
    }
  }

  /** Two entries are the same action exactly when nothing but identities, zones and author names tells them apart. */
  lemma EqualIsErasedEquality(a: LogEntry, b: LogEntry)
    ensures Equal(a, b) <==> Erased(a) == Erased(b)
  {
    EqualAttrsIsErasedEquality(a.attrs, b.attrs);
  }

  /** The same action has the same message, level, author and keys, with values of the same kind. */
  lemma SameActionMeans(a: LogEntry, b: LogEntry)
    requires Equal(a, b)
    ensures a.message == b.message && a.level == b.level
    ensures
      match (a.author, b.author)
      case (Some(x), Some(y)) => x.id == y.id
      case (None, None) => true
      case _ => false
    ensures |a.attrs| == |b.attrs|
    ensures forall i | 0 <= i < |a.attrs| ::
      a.attrs[i].key == b.attrs[i].key && SameKind(a.attrs[i].value, b.attrs[i].value)
  {
    forall i | 0 <= i < |a.attrs| ensures SameKind(a.attrs[i].value, b.attrs[i].value) {
      EqualIsSameKind(a.attrs[i].value, b.attrs[i].value);
    }
  }

  /** Values of one kind that hold the same: identities and zones aside, and what is nested compared in turn. */
  predicate SameKind(a: Value, b: Value) {
    match (a, b)
    case (Str(x), Str(y)) => x == y
    case (Int(x), Int(y)) => x == y
    case (Bool(x), Bool(y)) => x == y
    case (Float(x), Float(y)) => x == y
    case (Time(x, _), Time(y, _)) => x == y
    case (Any(_, x), Any(_, y)) => x == y
    case (LogValuer(_, x), LogValuer(_, y)) => EqualValue(x, y)
    case (Group(x), Group(y)) => EqualAttrs(x, y)
    case _ => false
  }

  lemma EqualIsSameKind(a: Value, b: Value)
    ensures EqualValue(a, b) <==> SameKind(a, b)
  {
  }

  /** So being the same action is an equivalence. */
  lemma EqualIsAnEquivalence(a: LogEntry, b: LogEntry, c: LogEntry)
    ensures Equal(a, a) && (Equal(a, b) ==> Equal(b, a)) && (Equal(a, b) && Equal(b, c) ==> Equal(a, c))
  {
    hide Equal, Erased;
    EqualIsErasedEquality(a, a);
    EqualIsErasedEquality(a, b);
    EqualIsErasedEquality(b, a);
    EqualIsErasedEquality(b, c);
    EqualIsErasedEquality(a, c);
  }
}

/**
  The audit log on Discord: an action that repeats the last one edits the count of its message
  instead of posting a new one. Discord may refuse any call.
*/
module AuditWebhook {
  import opened Common
  import opened LogEntries

  /** A message as the channel shows it; a fresh one shows no count, which stands for 1. */
  datatype Post = Post(entry: LogEntry, shown: int)

  /** What Discord makes of a new message: refuses it, takes it without describing it, or takes and describes it. */
  datatype Reply = Refused | Silent | Posted

  /** One call to Send, with what Discord would answer to an edit and to a new message. */
  datatype Call = Call(entry: LogEntry, editOk: bool, reply: Reply)

  /** The sender's fields, the channel, and the entries whose Send succeeded. */
  datatype State = State(last: Option<LogEntry>, lastId: nat, count: int, posts: seq<Post>, delivered: seq<LogEntry>)

  const START := State(None, 0, 0, [], [])

  predicate Repeats(s: State, c: Call) {
    s.last.Some? && Equal(s.last.value, c.entry)
  }

  /** The repeated action was counted in the channel. */
  predicate Edits(s: State, c: Call) {
    Repeats(s, c) && c.editOk
  }

  /** Neither the edit nor the new message went through. */
  predicate FailsTwice(s: State, c: Call) {
    Repeats(s, c) && !c.editOk && c.reply == Refused
  }

  predicate Posts(s: State, c: Call) {
    !Edits(s, c) && c.reply != Refused
  }

  ghost predicate Valid(s: State) {
    s.last.Some? ==>
      |s.posts| > 0 && s.lastId == |s.posts| - 1 && s.posts[s.lastId].entry == s.last.value
      && 1 <= s.posts[s.lastId].shown <= s.count
  }

  /** How far the sender's count has run ahead of what its message shows. */
  function Drift(s: State): int {
    if s.last.Some? && s.lastId < |s.posts| then s.count - s.posts[s.lastId].shown else 0
  }

  function Step(s: State, c: Call): State {
    if Edits(s, c) then
      s.(count := s.count + 1, delivered := s.delivered + [c.entry],
         posts := if s.lastId < |s.posts| then s.posts[s.lastId := Post(s.last.value, s.count + 1)] else s.posts)
    else
      match c.reply
      case Refused => s.(count := if Repeats(s, c) then s.count + 1 else s.count)
      case Posted => State(Some(c.entry), |s.posts|, 1, s.posts + [Post(c.entry, 1)], s.delivered + [c.entry])
      case Silent => State(None, 0, -1, s.posts + [Post(c.entry, 1)], s.delivered + [c.entry])
  }

  function Run(calls: seq<Call>): State {
    if calls == [] then START else Step(Run(calls[..|calls| - 1]), calls[|calls| - 1])
  }

  // ---- The code ----

  class WebhookSender {
    var lastMessageEntry: Option<LogEntry>
    var lastMessageID: nat
    var lastMessageCount: int
    /** The channel, and for the proof the entries that were sent. */
    var channel: seq<Post>
    ghost var sent: seq<LogEntry>

    ghost function Contents(): State
      reads this
    {
      State(lastMessageEntry, lastMessageID, lastMessageCount, channel, sent)
    }

    constructor ()
      ensures Contents() == START
    {
      lastMessageEntry, lastMessageID, lastMessageCount, channel, sent := None, 0, 0, [], [];
    }

    /** The count goes up before it is known whether Discord shows it. */
    method EditLastMessage(editOk: bool) returns (ok: bool)
      requires lastMessageEntry.Some?
      modifies this`lastMessageCount, this`channel
      ensures ok == editOk && lastMessageCount == old(lastMessageCount) + 1
      ensures channel ==
        if ok && lastMessageID < |old(channel)|
        then old(channel)[lastMessageID := Post(lastMessageEntry.value, lastMessageCount)] else old(channel)
    {
      lastMessageCount := lastMessageCount + 1;
      if editOk && lastMessageID < |channel| {
        channel := channel[lastMessageID := Post(lastMessageEntry.value, lastMessageCount)];
      }
      ok := editOk;
    }

    method Send(entry: LogEntry, editOk: bool, reply: Reply) returns (ok: bool)
      modifies this
      ensures Contents() == Step(old(Contents()), Call(entry, editOk, reply))
      ensures ok <==> sent == old(sent) + [entry]
      ensures !ok ==> sent == old(sent) && channel == old(channel)
      ensures
        var (last, id, count) := (lastMessageEntry, lastMessageID, lastMessageCount);
        var repeated := old(lastMessageEntry).Some? && Equal(old(lastMessageEntry).value, entry);
        if repeated && editOk then
          && ok && last == old(lastMessageEntry) && id == old(lastMessageID) && count == old(lastMessageCount) + 1
          && channel == (if id < |old(channel)| then old(channel)[id := Post(last.value, count)] else old(channel))
        else if reply == Refused then
          && !ok && last == old(lastMessageEntry) && id == old(lastMessageID)
          && count == old(lastMessageCount) + (if repeated then 1 else 0)
        else
          && ok && channel == old(channel) + [Post(entry, 1)]
          && if reply == Posted then last == Some(entry) && id == |old(channel)| && count == 1
             else last == None && id == 0 && count == -1
    {
      if lastMessageEntry.Some? && Equal(lastMessageEntry.value, entry) {
        var edited := EditLastMessage(editOk);
        if edited {
          sent := sent + [entry];
          return true;
        }
      }
      if reply == Refused {
        return false;
      }
      channel := channel + [Post(entry, 1)];
      sent := sent + [entry];
      if reply == Posted {
        lastMessageID := |channel| - 1;
        lastMessageEntry := Some(entry);
        lastMessageCount := 1;
      } else {
        lastMessageID := 0;
        lastMessageEntry := None;
        lastMessageCount := -1;
      }
      ok := true;
    }
  }

  // ---- Reading the channel ----

  function Repeated(e: LogEntry, n: int): seq<LogEntry> {
    if n <= 0 then [] else Repeated(e, n - 1) + [e]
  }

  /** Every message as often as its count says. */
  function Decode(posts: seq<Post>): seq<LogEntry> {
    if posts == [] then []
    else
      var p := posts[|posts| - 1];
      Decode(posts[..|posts| - 1]) + Repeated(p.entry, p.shown)
  }

  ghost predicate SameActions(a: seq<LogEntry>, b: seq<LogEntry>) {
    |a| == |b| && forall i | 0 <= i < |a| :: Equal(a[i], b[i])
  }

  /** Reading the channel gives what was sent, in order. */
  ghost predicate Faithful(s: State) {
    SameActions(Decode(s.posts), s.delivered)
  }

  lemma {:induction false} RunIsValid(calls: seq<Call>)
    ensures Valid(Run(calls))
  {
    hide Equal;
    if calls != [] {
      RunIsValid(calls[..|calls| - 1]);
    }
  }

  lemma DecodeMore(posts: seq<Post>, e: LogEntry)
    ensures Decode(posts + [Post(e, 1)]) == Decode(posts) + [e]
  {
    assert (posts + [Post(e, 1)])[..|posts|] == posts;
    assert Repeated(e, 1) == Repeated(e, 0) + [e] == [e];
  }

  lemma {:induction false} RepeatedSize(e: LogEntry, n: int)
    ensures |Repeated(e, n)| == if n <= 0 then 0 else n
  {
    if n > 0 {
      RepeatedSize(e, n - 1);
    }
  }

  /** Showing a larger count on the last message. */
  lemma DecodeEdited(posts: seq<Post>, n: int)
    requires posts != [] && 1 <= posts[|posts| - 1].shown <= n
    ensures
      var p := posts[|posts| - 1];
      var more := posts[|posts| - 1 := Post(p.entry, n)];
      && |Decode(more)| == |Decode(posts)| + (n - p.shown)
      && (n == p.shown + 1 ==> Decode(more) == Decode(posts) + [p.entry])
  {
    var p := posts[|posts| - 1];
    var more := posts[|posts| - 1 := Post(p.entry, n)];
    assert more[..|posts| - 1] == posts[..|posts| - 1];
    RepeatedSize(p.entry, n);
    RepeatedSize(p.entry, p.shown);
    if n == p.shown + 1 {
      assert Decode(more) == Decode(posts[..|posts| - 1]) + (Repeated(p.entry, p.shown) + [p.entry]);
    }
  }

  /** One call: the channel gains what was delivered, plus the drift when an edit shows it. */
  lemma StepReads(s: State, c: Call)
    requires Valid(s)
    ensures
      var t := Step(s, c);
      && |Decode(t.posts)| - |t.delivered| == |Decode(s.posts)| - |s.delivered| + (if Edits(s, c) then Drift(s) else 0)
      && (Faithful(s) && !(Edits(s, c) && Drift(s) > 0) ==> Faithful(t))
  {
    hide Equal, Decode;
    var t := Step(s, c);
    if Edits(s, c) {
      DecodeEdited(s.posts, s.count + 1);
      EqualIsAnEquivalence(s.last.value, c.entry, c.entry);
    } else if c.reply != Refused {
      DecodeMore(s.posts, c.entry);
      EqualIsAnEquivalence(c.entry, c.entry, c.entry);
    }
  }

  // ---- Over whole runs ----

  function Before(calls: seq<Call>, i: nat): State
    requires i <= |calls|
  {
    Run(calls[..i])
  }

  /** At some point an edit showed a count that earlier failures had pushed too far. */
  ghost predicate Miscounts(calls: seq<Call>) {
    exists j :: 0 <= j < |calls| && Edits(Before(calls, j), calls[j]) && Drift(Before(calls, j)) > 0
  }

  lemma BeforeOfPrefix(calls: seq<Call>, n: nat, i: nat)
    requires i <= n <= |calls|
    ensures Before(calls[..n], i) == Before(calls, i)
  {
    assert calls[..n][..i] == calls[..i];
  }

  lemma MiscountsOfPrefix(calls: seq<Call>)
    requires calls != []
    ensures
      var n := |calls| - 1;
      Miscounts(calls) <==>
        Miscounts(calls[..n]) || (Edits(Before(calls, n), calls[n]) && Drift(Before(calls, n)) > 0)
  {
    hide Edits, Drift, Run;
    var n := |calls| - 1;
    forall i | 0 <= i < n ensures Before(calls[..n], i) == Before(calls, i) && calls[..n][i] == calls[i] {
      BeforeOfPrefix(calls, n, i);
    }
    if Miscounts(calls[..n]) {
      var j :| 0 <= j < n && Edits(Before(calls[..n], j), calls[..n][j]) && Drift(Before(calls[..n], j)) > 0;
      assert Edits(Before(calls, j), calls[j]);
    }
    if Miscounts(calls) {
      var j :| 0 <= j < |calls| && Edits(Before(calls, j), calls[j]) && Drift(Before(calls, j)) > 0;
      assert j < n ==> Edits(Before(calls[..n], j), calls[..n][j]);
    }
  }

  lemma {:induction false} ReadsOrMiscounts(calls: seq<Call>)
    ensures |Decode(Run(calls).posts)| >= |Run(calls).delivered|
    ensures Miscounts(calls) ==> |Decode(Run(calls).posts)| > |Run(calls).delivered|
    ensures !Miscounts(calls) ==> Faithful(Run(calls))
  {
    hide Edits, Drift, Decode, Step, Equal;
    if calls != [] {
      var n := |calls| - 1;
      ReadsOrMiscounts(calls[..n]);
      MiscountsOfPrefix(calls);
      RunIsValid(calls[..n]);
      DriftNotNegative(Run(calls[..n]));
      StepReads(Run(calls[..n]), calls[n]);
    } else {
      NothingYet();
    }
  }

  lemma NothingYet()
    ensures Decode([]) == []
  {
  }

  lemma DriftNotNegative(s: State)
    requires Valid(s)
    ensures Drift(s) >= 0
  {
  }

  /** The channel reads as what was sent exactly when no edit ever showed a drifted count. */
  lemma FaithfulIffNoMiscount(calls: seq<Call>)
    ensures Faithful(Run(calls)) <==> !Miscounts(calls)
  {
    hide Run, Miscounts, Decode;
    ReadsOrMiscounts(calls);
  }

  /** The i-th call failed both ways, and nothing has reached the channel since. */
  ghost predicate FailedAndQuiet(calls: seq<Call>, i: nat)
    requires i < |calls|
  {
    FailsTwice(Before(calls, i), calls[i]) && QuietAfter(calls, i)
  }

  ghost predicate Stale(calls: seq<Call>) {
    exists i :: 0 <= i < |calls| && FailedAndQuiet(calls, i)
  }

  lemma FailedAndQuietOfPrefix(calls: seq<Call>, i: nat)
    requires i < |calls| - 1
    ensures
      var n := |calls| - 1;
      FailedAndQuiet(calls, i) <==>
        FailedAndQuiet(calls[..n], i) && !Edits(Before(calls, n), calls[n]) && !Posts(Before(calls, n), calls[n])
  {
    hide FailsTwice, Edits, Posts, Run, QuietAfter;
    BeforeOfPrefix(calls, |calls| - 1, i);
    QuietOfPrefix(calls, i);
  }

  lemma StaleOfPrefix(calls: seq<Call>)
    requires calls != []
    ensures
      var n := |calls| - 1;
      var (s, c) := (Before(calls, n), calls[n]);
      Stale(calls) <==> FailsTwice(s, c) || (Stale(calls[..n]) && !Edits(s, c) && !Posts(s, c))
  {
    hide FailsTwice, Edits, Posts, Run, FailedAndQuiet;
    var n := |calls| - 1;
    forall i | 0 <= i < n
      ensures FailedAndQuiet(calls, i) <==>
        FailedAndQuiet(calls[..n], i) && !Edits(Before(calls, n), calls[n]) && !Posts(Before(calls, n), calls[n])
    {
      FailedAndQuietOfPrefix(calls, i);
    }
    LastIsQuiet(calls);
    if Stale(calls[..n]) {
      var i :| 0 <= i < n && FailedAndQuiet(calls[..n], i);
      assert FailedAndQuiet(calls, i) || Edits(Before(calls, n), calls[n]) || Posts(Before(calls, n), calls[n]);
    }
    if Stale(calls) {
      var i :| 0 <= i < |calls| && FailedAndQuiet(calls, i);
      assert i < n ==> FailedAndQuiet(calls[..n], i);
    }
  }

  lemma LastIsQuiet(calls: seq<Call>)
    requires calls != []
    ensures FailedAndQuiet(calls, |calls| - 1) <==> FailsTwice(Before(calls, |calls| - 1), calls[|calls| - 1])
  {
    hide FailsTwice;
  }

  /** The count has drifted exactly when, since the last post or edit that went through, a call failed twice. */
  lemma {:induction false} DriftMeansFailedTwice(calls: seq<Call>)
    ensures Drift(Run(calls)) > 0 <==> Stale(calls)
  {
    hide FailsTwice, Edits, Posts, Step, Drift, Run, Stale;
    if calls == [] {
      NoDriftAtStart();
      NothingIsStale();
    } else {
      var n := |calls| - 1;
      DriftMeansFailedTwice(calls[..n]);
      StaleOfPrefix(calls);
      RunIsValid(calls[..n]);
      DriftStep(Run(calls[..n]), calls[n]);
      DriftNotNegative(Run(calls[..n]));
      RunUnfolds(calls);
    }
  }

  lemma NothingIsStale()
    ensures !Stale([])
  {
  }

  /** No call after the i-th posted or edited. */
  ghost predicate QuietAfter(calls: seq<Call>, i: nat) {
    forall k | i < k < |calls| :: !Edits(Before(calls, k), calls[k]) && !Posts(Before(calls, k), calls[k])
  }

  lemma QuietOfPrefix(calls: seq<Call>, i: nat)
    requires i < |calls| - 1
    ensures
      var n := |calls| - 1;
      QuietAfter(calls, i) <==>
        QuietAfter(calls[..n], i) && !Edits(Before(calls, n), calls[n]) && !Posts(Before(calls, n), calls[n])
  {
    hide Edits, Posts, Run;
    var n := |calls| - 1;
    forall k | 0 <= k < n ensures Before(calls[..n], k) == Before(calls, k) && calls[..n][k] == calls[k] {
      BeforeOfPrefix(calls, n, k);
    }
  }

  lemma NoDriftAtStart()
    ensures Drift(Run([])) == 0
  {
  }

  lemma RunUnfolds(calls: seq<Call>)
    requires calls != []
    ensures Run(calls) == Step(Run(calls[..|calls| - 1]), calls[|calls| - 1])
  {
  }

  lemma DriftStep(s: State, c: Call)
    requires Valid(s)
    ensures Drift(Step(s, c)) ==
      if Edits(s, c) || Posts(s, c) then 0 else if FailsTwice(s, c) then Drift(s) + 1 else Drift(s)
    ensures FailsTwice(s, c) ==> !Edits(s, c) && !Posts(s, c)
  {
    hide Equal;
  }

  /** Call i failed both ways, and the next call to reach its message was the successful edit j. */
  ghost predicate EditsAfterFailing(calls: seq<Call>, i: nat, j: nat)
    requires i < j < |calls|
  {
    && FailsTwice(Before(calls, i), calls[i]) && Edits(Before(calls, j), calls[j])
    && forall k | i < k < j :: !Edits(Before(calls, k), calls[k]) && !Posts(Before(calls, k), calls[k])
  }

  lemma QuietUpTo(calls: seq<Call>, i: nat, j: nat)
    requires i < j < |calls|
    ensures FailsTwice(Before(calls[..j], i), calls[..j][i]) <==> FailsTwice(Before(calls, i), calls[i])
    ensures QuietAfter(calls[..j], i) <==>
      forall k | i < k < j :: !Edits(Before(calls, k), calls[k]) && !Posts(Before(calls, k), calls[k])
  {
    hide FailsTwice, Edits, Posts, Run;
    forall k | 0 <= k < j ensures Before(calls[..j], k) == Before(calls, k) && calls[..j][k] == calls[k] {
      BeforeOfPrefix(calls, j, k);
    }
  }

  /**
    The channel reads as what was sent, in order and with the right counts, exactly when no call
    that failed both ways was followed by a successful edit of the same message.
  */
  lemma FaithfulIffNoEditAfterFailing(calls: seq<Call>)
    ensures Faithful(Run(calls)) <==> !exists i, j :: 0 <= i < j < |calls| && EditsAfterFailing(calls, i, j)
  {
    hide FailsTwice, Edits, Posts, Run, Drift, Decode, Equal, QuietAfter;
    FaithfulIffNoMiscount(calls);
    if Miscounts(calls) {
      var j :| 0 <= j < |calls| && Edits(Before(calls, j), calls[j]) && Drift(Before(calls, j)) > 0;
      DriftMeansFailedTwice(calls[..j]);
      var i :| 0 <= i < j && FailedAndQuiet(calls[..j], i);
      QuietUpTo(calls, i, j);
      assert EditsAfterFailing(calls, i, j);
    }
    forall i, j | 0 <= i < j < |calls| && EditsAfterFailing(calls, i, j) ensures Miscounts(calls) {
      QuietUpTo(calls, i, j);
      DriftMeansFailedTwice(calls[..j]);
      assert FailedAndQuiet(calls[..j], i);
      assert Drift(Before(calls, j)) > 0;
    }
  }

  /** The sum of the displayed counts. */
  function TotalShown(posts: seq<Post>): int {
    if posts == [] then 0 else TotalShown(posts[..|posts| - 1]) + posts[|posts| - 1].shown
  }

  ghost predicate AllShow(posts: seq<Post>) {
    forall i | 0 <= i < |posts| :: posts[i].shown >= 1
  }

  lemma {:induction false} ShownIsDecoded(posts: seq<Post>)
    requires AllShow(posts)
    ensures TotalShown(posts) == |Decode(posts)|
  {
    if posts != [] {
      var p := posts[|posts| - 1];
      ShownIsDecoded(posts[..|posts| - 1]);
      RepeatedSize(p.entry, p.shown);
    }
  }

  lemma {:induction false} RunShows(calls: seq<Call>)
    ensures AllShow(Run(calls).posts)
  {
    hide Repeats;
    if calls != [] {
      RunShows(calls[..|calls| - 1]);
      RunIsValid(calls[..|calls| - 1]);
      StepShows(Run(calls[..|calls| - 1]), calls[|calls| - 1]);
    }
  }

  lemma StepShows(s: State, c: Call)
    requires Valid(s) && AllShow(s.posts)
    ensures AllShow(Step(s, c).posts)
  {
    hide Equal;
  }

  /** In particular the channel is faithful on every run in which no call fails both ways. */
  lemma NoDoubleFailureIsFaithful(calls: seq<Call>)
    requires forall i | 0 <= i < |calls| :: !FailsTwice(Before(calls, i), calls[i])
    ensures Faithful(Run(calls)) && TotalShown(Run(calls).posts) == |Run(calls).delivered|
  {
    hide FailsTwice, Edits, Drift, Run, Decode, Equal, TotalShown;
    RunShows(calls);
    ShownIsDecoded(Run(calls).posts);
    forall j | 0 <= j < |calls| ensures Drift(Before(calls, j)) <= 0 {
      DriftMeansFailedTwice(calls[..j]);
      forall i | 0 <= i < j ensures !FailsTwice(Before(calls[..j], i), calls[..j][i]) {
        BeforeOfPrefix(calls, j, i);
      }
    }
    FaithfulIffNoMiscount(calls);
  }

  /** Posted, then repeated without success, then repeated with a successful edit: two were sent and three are shown. */
  lemma CountRunsAhead(e: LogEntry)
    ensures
      var calls := [Call(e, true, Posted), Call(e, false, Refused), Call(e, true, Refused)];
      && Run(calls).posts == [Post(e, 3)] && Run(calls).delivered == [e, e]
      && !Faithful(Run(calls))
  {
    hide Equal;
    EqualIsAnEquivalence(e, e, e);
    var calls := [Call(e, true, Posted), Call(e, false, Refused), Call(e, true, Refused)];
    var one, two := calls[..1], calls[..2];
    assert one[..0] == [] && two[..1] == one && calls[..2] == two;
    assert Run(one) == State(Some(e), 0, 1, [Post(e, 1)], [e]);
    assert Run(two) == State(Some(e), 0, 2, [Post(e, 1)], [e]);
    assert Run(calls) == State(Some(e), 0, 3, [Post(e, 3)], [e, e]);
    assert TotalShown([Post(e, 3)]) == 3;
    ShownIsDecoded([Post(e, 3)]);
  }
}
