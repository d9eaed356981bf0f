/** Line framing of a connection (src/TcpServer.cpp, the read loop in `start`): bytes
    arrive in arbitrary pieces, complete lines are executed, the rest is kept. */
module Framing {
  import opened Basics
  import opened FlatStore
  import opened Replay
  import opened Resp
  import opened Commands
  import Shards

  /** A session, and the shared store and log behind it. */
  datatype Client = Client(
    db: Db, authenticated: bool, open: bool, buffer: string, lines: seq<string>, sent: string)

  /** A session is born authenticated where no password is required. */
  function NewClient(db: Db, password: string): Client {
    Client(db, password == "", true, "", [], "")
  }

  /** buffer.find('\n') */
  function FindLf(s: string): (r: Option<nat>)
    ensures r.Some? ==> r.value < |s| && s[r.value] == '\n' && '\n' !in s[..r.value]
    ensures r.None? <==> '\n' !in s
  {
    if s == "" then None
    else if s[0] == '\n' then Some(0)
    else
      var r := FindLf(s[1..]);
      assert s == [s[0]] + s[1..];
      if r.None? then None else
        assert s[..r.value + 1] == [s[0]] + s[1..][..r.value];
        Some(r.value + 1)
  }

  const NO_CHOICE := Choice(Clock(_ => 0), [], "", "")

  /** What the environment contributes to line number n. */
  function ChoiceAt(choices: seq<Choice>, n: nat): Choice {
    if n < |choices| then choices[n] else NO_CHOICE
  }

  predicate HasLine(c: Client) {
    c.open && FindLf(c.buffer).Some?
  }

  function FirstLine(c: Client): string
    requires HasLine(c)
  {
    c.buffer[..FindLf(c.buffer).value + 1]
  }

  /** One turn of the inner loop. A session that closes is erased with its buffer. */
  function Turn(c: Client, password: string, choices: seq<Choice>): (d: Client)
    requires HasLine(c)
    ensures |d.buffer| < |c.buffer| && d.lines == c.lines + [FirstLine(c)]
    ensures d.buffer == if d.open then c.buffer[|FirstLine(c)|..] else ""
  {
    var line := FirstLine(c);
    var o := Run(c.db, c.authenticated, password, line, ChoiceAt(choices, |c.lines|));
    Client(o.db, o.authenticated, !o.close, if o.close then "" else c.buffer[|line|..], c.lines + [line],
           c.sent + o.reply)
  }

  /** The inner loop. */
  function Drain(c: Client, password: string, choices: seq<Choice>): Client
    decreases |c.buffer|
  {
    if HasLine(c) then Drain(Turn(c, password, choices), password, choices) else c
  }

  function Receive(c: Client, chunk: string, password: string, choices: seq<Choice>): Client {
    if c.open then Drain(c.(buffer := c.buffer + chunk), password, choices) else c
  }

  function ReceiveAll(c: Client, chunks: seq<string>, password: string, choices: seq<Choice>): Client {
    if chunks == [] then c else
      var n := |chunks| - 1;
      Receive(ReceiveAll(c, chunks[..n], password, choices), chunks[n], password, choices)
  }

  function Joined(pieces: seq<string>): string {
    if pieces == [] then "" else Joined(pieces[..|pieces| - 1]) + pieces[|pieces| - 1]
  }

  // ---- chunking does not matter ------------------------------------------------------------

  lemma {:induction false} FirstLf(s: string, i: nat)
    requires i < |s| && s[i] == '\n' && '\n' !in s[..i]
    ensures FindLf(s) == Some(i)
  {
    if i > 0 {
      assert s[0] == s[..i][0] && s[1..][..i - 1] == s[..i][1..];
      FirstLf(s[1..], i - 1);
    }
  }

  lemma FindInPrefix(a: string, b: string)
    ensures FindLf(a).Some? ==> FindLf(a + b) == FindLf(a)
  {
    if FindLf(a).Some? {
      var i := FindLf(a).value;
      assert (a + b)[..i] == a[..i];
      FirstLf(a + b, i);
    }
  }

  /** A turn on the first part of the buffer is a turn on all of it. */
  lemma TurnOfPrefix(c: Client, b: string, password: string, choices: seq<Choice>)
    requires HasLine(c)
    ensures var all := c.(buffer := c.buffer + b);
            var d := Turn(c, password, choices);
            HasLine(all) && FirstLine(all) == FirstLine(c)
            && Turn(all, password, choices) == if d.open then d.(buffer := d.buffer + b) else d
  {
    hide Run;
    FindInPrefix(c.buffer, b);
    var n := FindLf(c.buffer).value + 1;
    assert (c.buffer + b)[..n] == c.buffer[..n] && (c.buffer + b)[n..] == c.buffer[n..] + b;
  }

  /** Draining a buffer that arrived in two parts. */
  lemma {:induction false} DrainSplit(c: Client, b: string, password: string, choices: seq<Choice>)
    requires c.open
    ensures Drain(c.(buffer := c.buffer + b), password, choices)
            == Receive(Drain(c, password, choices), b, password, choices)
    decreases |c.buffer|
  {
    hide Turn;
    if HasLine(c) {
      var d := Turn(c, password, choices);
      TurnOfPrefix(c, b, password, choices);
      assert Drain(c, password, choices) == Drain(d, password, choices);
      if d.open {
        DrainSplit(d, b, password, choices);
      }
    }
  }

  predicate Settled(c: Client) {
    c.open ==> '\n' !in c.buffer
  }

  lemma {:induction false} DrainSettles(c: Client, password: string, choices: seq<Choice>)
    ensures Settled(Drain(c, password, choices))
    decreases |c.buffer|
  {
    hide Turn;
    if HasLine(c) { DrainSettles(Turn(c, password, choices), password, choices); }
  }

  /** Any number of pieces is as good as one. */
  lemma {:induction false} ReceivedAtOnce(c: Client, chunks: seq<string>, password: string, choices: seq<Choice>)
    requires Settled(c) && c.open
    ensures ReceiveAll(c, chunks, password, choices) == Receive(c, Joined(chunks), password, choices)
  {
    hide Drain;
    if chunks == [] {
      assert c.buffer + "" == c.buffer;
      DrainOfSettled(c, password, choices);
    } else {
      var n := |chunks| - 1;
      ReceivedAtOnce(c, chunks[..n], password, choices);
      Assoc(c.buffer, Joined(chunks[..n]), chunks[n]);
      DrainSplit(c.(buffer := c.buffer + Joined(chunks[..n])), chunks[n], password, choices);
    }
  }

  lemma DrainOfSettled(c: Client, password: string, choices: seq<Choice>)
    requires Settled(c)
    ensures Drain(c, password, choices) == c
  {
  }

  /** Two ways of cutting the same bytes into reads: the same lines executed, up to the
      first closing reply, the same store, log, session, bytes sent and buffer. */
  lemma ChunkingDoesNotMatter(c: Client, a: seq<string>, b: seq<string>, password: string, choices: seq<Choice>)
    requires Settled(c) && c.open && Joined(a) == Joined(b)
    ensures ReceiveAll(c, a, password, choices) == ReceiveAll(c, b, password, choices)
  {
    ReceivedAtOnce(c, a, password, choices);
    ReceivedAtOnce(c, b, password, choices);
  }

  // ---- no byte is lost ---------------------------------------------------------------------

  lemma {:induction false} DrainAccounts(c: Client, password: string, choices: seq<Choice>)
    requires forall i :: 0 <= i < |c.lines| ==> IsLine(c.lines[i])
    ensures var d := Drain(c, password, choices);
            && (forall i :: 0 <= i < |d.lines| ==> IsLine(d.lines[i]))
            && (d.open ==> Joined(d.lines) + d.buffer == Joined(c.lines) + c.buffer)
            && Joined(d.lines) <= Joined(c.lines) + c.buffer
    decreases |c.buffer|
  {
    hide Turn, FindLf;
    if HasLine(c) {
      var d, line := Turn(c, password, choices), FirstLine(c);
      var rest := c.buffer[|line|..];
      assert line[..|line| - 1] == c.buffer[..FindLf(c.buffer).value];
      assert c.buffer == line + rest;
      assert d.lines[..|c.lines|] == c.lines;
      assert Joined(d.lines) == Joined(c.lines) + line;
      Assoc(Joined(c.lines), line, rest);
      DrainAccounts(d, password, choices);
      if !d.open { DrainOfSettled(d, password, choices); }
    } else {
      assert Joined(c.lines) <= Joined(c.lines) + c.buffer;
    }
  }

  /** While the session is open, the lines executed and the buffer are the bytes
      received, and the buffer holds no complete line. */
  lemma NoByteIsLost(db: Db, chunks: seq<string>, password: string, choices: seq<Choice>)
    ensures var c := ReceiveAll(NewClient(db, password), chunks, password, choices);
            && (forall i :: 0 <= i < |c.lines| ==> IsLine(c.lines[i]))
            && (c.open ==> Joined(c.lines) + c.buffer == Joined(chunks) && '\n' !in c.buffer)
            && Joined(c.lines) <= Joined(chunks)
  {
    hide Drain;
    var c := NewClient(db, password);
    var all := c.(buffer := c.buffer + Joined(chunks));
    ReceivedAtOnce(c, chunks, password, choices);
    DrainAccounts(all, password, choices);
    DrainSettles(all, password, choices);
    assert Joined([]) + all.buffer == Joined(chunks);
  }

  // ---- the loop itself -----------------------------------------------------------------------

  /** The session after n turns. */
  function Turns(c: Client, n: nat, password: string, choices: seq<Choice>): Client {
    if n == 0 then c else
      var d := Turns(c, n - 1, password, choices);
      if HasLine(d) then Turn(d, password, choices) else d
  }

  /** In every one of n turns the environment behaved. */
  ghost predicate AllowedTurns(c: Client, n: nat, password: string, choices: seq<Choice>) {
    n > 0 ==>
      && AllowedTurns(c, n - 1, password, choices)
      && var d := Turns(c, n - 1, password, choices);
         && HasLine(d)
         && Allowed(d.db, d.authenticated, password, ParseRequest(FirstLine(d)), ChoiceAt(choices, |d.lines|))
  }

  lemma {:induction false} TurnsLines(c: Client, n: nat, password: string, choices: seq<Choice>)
    requires AllowedTurns(c, n, password, choices)
    ensures |Turns(c, n, password, choices).lines| == |c.lines| + n
  {
    hide Turn, Allowed;
    if n > 0 { TurnsLines(c, n - 1, password, choices); }
  }

  /** Later choices do not affect earlier turns. */
  lemma {:induction false} TurnsExtend(c: Client, n: nat, password: string, choices: seq<Choice>, more: seq<Choice>)
    requires AllowedTurns(c, n, password, choices) && |c.lines| + n <= |choices|
    ensures Turns(c, n, password, choices + more) == Turns(c, n, password, choices)
    ensures AllowedTurns(c, n, password, choices + more)
  {
    hide Run, Allowed;
    if n > 0 {
      TurnsLines(c, n - 1, password, choices);
      TurnsExtend(c, n - 1, password, choices, more);
    }
  }

  lemma {:induction false} TurnsDrain(c: Client, n: nat, password: string, choices: seq<Choice>)
    ensures Drain(Turns(c, n, password, choices), password, choices) == Drain(c, password, choices)
  {
    hide Turn;
    if n > 0 { TurnsDrain(c, n - 1, password, choices); }
  }

  // ---- nothing before authentication -------------------------------------------------------

  predicate SomeGivesPassword(lines: seq<string>, from: nat, password: string) {
    exists i :: from <= i < |lines| && GivesPassword(ParseRequest(lines[i]), password)
  }

  lemma TurnBeforeAuth(c: Client, other: Db, password: string, choices: seq<Choice>, others: seq<Choice>)
    requires HasLine(c) && password != ""
    ensures var d := Turn(c, password, choices);
            && (d.authenticated <==> c.authenticated || GivesPassword(ParseRequest(FirstLine(c)), password))
            && (!c.authenticated ==> d.db == c.db && Turn(c.(db := other), password, others) == d.(db := other))
  {
    hide ParseRequest, RunData, ToUpper, FindLf, Run, NO_CHOICE;
    AuthenticationGate(c.db, other, c.authenticated, password, FirstLine(c),
                       ChoiceAt(choices, |c.lines|), ChoiceAt(others, |c.lines|));
  }

  /** Where a password is required: after any number of lines none of which gives it,
      the store and the log are as they were, and nothing about the session, the bytes
      sent included, depends on them or on what the environment chose. */
  lemma {:induction false} NothingBeforeAuth(c: Client, n: nat, password: string, choices: seq<Choice>,
                                             other: Db, others: seq<Choice>)
    requires password != "" && !c.authenticated
    requires !SomeGivesPassword(Turns(c, n, password, choices).lines, |c.lines|, password)
    ensures var d := Turns(c, n, password, choices);
            && d.db == c.db && !d.authenticated && |c.lines| <= |d.lines|
            && Turns(c.(db := other), n, password, others) == d.(db := other)
  {
    hide Turn, GivesPassword, FindLf, ParseRequest;
    if n > 0 {
      var d := Turns(c, n - 1, password, choices);
      var e := Turns(c, n, password, choices);
      assert e.lines == d.lines || (HasLine(d) && e.lines == d.lines + [FirstLine(d)]);
      forall i | |c.lines| <= i < |d.lines| ensures !GivesPassword(ParseRequest(d.lines[i]), password) {
        assert e.lines[i] == d.lines[i];
      }
      NothingBeforeAuth(c, n - 1, password, choices, other, others);
      if HasLine(d) {
        assert e.lines[|d.lines|] == FirstLine(d);
        TurnBeforeAuth(d, other, password, choices, others);
      }
    }
  }

  /** And the session is authenticated exactly when it was, or some line gave it. */
  lemma {:induction false} AuthenticatedIff(c: Client, n: nat, password: string, choices: seq<Choice>)
    requires password != ""
    ensures var d := Turns(c, n, password, choices);
            && |c.lines| <= |d.lines|
            && (d.authenticated <==> c.authenticated || SomeGivesPassword(d.lines, |c.lines|, password))
  {
    hide Turn, GivesPassword, FindLf, ParseRequest;
    if n > 0 {
      var d := Turns(c, n - 1, password, choices);
      var e := Turns(c, n, password, choices);
      AuthenticatedIff(c, n - 1, password, choices);
      if HasLine(d) {
        TurnBeforeAuth(d, d.db, password, choices, choices);
        var k := |d.lines|;
        assert e.lines == d.lines + [FirstLine(d)] && e.lines[k] == FirstLine(d);
        if i :| |c.lines| <= i < k && GivesPassword(ParseRequest(d.lines[i]), password) {
          assert e.lines[i] == d.lines[i];
        }
        if i :| |c.lines| <= i < |e.lines| && GivesPassword(ParseRequest(e.lines[i]), password) {
          assert i < k ==> d.lines[i] == e.lines[i];
        }
      }
    }
  }

  /** The turns of a read are some number of turns, so both hold of whole reads. */
  lemma {:induction false} DrainIsTurns(c: Client, password: string, choices: seq<Choice>) returns (n: nat)
    ensures Drain(c, password, choices) == Turns(c, n, password, choices)
    decreases |c.buffer|
  {
    hide Turn;
    n := 0;
    if HasLine(c) {
      var d := Turn(c, password, choices);
      var m := DrainIsTurns(d, password, choices);
      n := m + 1;
      TurnFirst(c, m, password, choices);
    }
  }

  lemma {:induction false} TurnFirst(c: Client, m: nat, password: string, choices: seq<Choice>)
    requires HasLine(c)
    ensures Turns(c, m + 1, password, choices) == Turns(Turn(c, password, choices), m, password, choices)
  {
    hide Turn;
    if m > 0 { TurnFirst(c, m - 1, password, choices); }
  }

  lemma OneMoreTurn(c: Client, n: nat, password: string, choices: seq<Choice>, ch: Choice)
    requires AllowedTurns(c, n, password, choices) && |c.lines| + n == |choices|
    requires var d := Turns(c, n, password, choices);
             HasLine(d) && Allowed(d.db, d.authenticated, password, ParseRequest(FirstLine(d)), ch)
    ensures AllowedTurns(c, n + 1, password, choices + [ch])
    ensures Turns(c, n + 1, password, choices + [ch]) == Turn(Turns(c, n, password, choices), password, choices + [ch])
  {
    hide Turn, Allowed;
    TurnsLines(c, n, password, choices);
    TurnsExtend(c, n, password, choices, [ch]);
  }

  /** One connected client, whose requests run on the event loop's thread. */
  class Connection {
    const parser: CommandParser
    var buffer: string
    var authenticated: bool
    var open: bool
    var sent: string
    ghost var lines: seq<string>
    ghost var choices: seq<Choice>

    constructor (parser: CommandParser)
      ensures this.parser == parser && open && (authenticated <==> parser.password == "")
      ensures buffer == "" && sent == "" && lines == [] && choices == []
    {
      this.parser := parser;
      buffer, authenticated, open := "", parser.password == "", true;
      sent, lines, choices := "", [], [];
    }

    ghost function State(): Client
      reads this, parser.store, parser.aof
    {
      Client(parser.State(), authenticated, open, buffer, lines, sent)
    }

    /** Bytes have arrived: keep them, and execute every complete line. `clocks` times
        the requests of this read; `choices` records what else the environment chose. */
    method OnReadable(chunk: string, clocks: seq<Clock>, info: string)
      requires parser.Valid() && open && |choices| == |lines|
      modifies this, parser.store.shards, parser.store`contents, parser.aof
      ensures parser.Valid() && |choices| == |lines| && old(choices) <= choices
      ensures State() == Receive(old(State()), chunk, parser.password, choices)
      ensures AllowedTurns(old(State()).(buffer := old(buffer) + chunk), |lines| - |old(lines)|,
                           parser.password, choices)
    {
      hide Run, Allowed, Shards.Represents, FlatStore.Tidy, Turn, Turns, AllowedTurns, ParseRequest, Drain;
      buffer := buffer + chunk;
      ghost var start, n, password, was := State(), 0, parser.password, choices;
      NoTurns(start, password, choices);
      var turn := 0;
      var pos := FindLf(buffer);
      while open && pos.Some?
        invariant parser.Valid() && |choices| == |lines| == |start.lines| + n && was <= choices
        invariant pos == FindLf(buffer)
        invariant AllowedTurns(start, n, password, choices) && State() == Turns(start, n, password, choices)
        decreases |buffer|
      {
        ghost var so := choices;
        var clock := if turn < |clocks| then clocks[turn] else Clock(_ => 0);
        ghost var ch := ServeLine(pos.value, clock, info);
        OneMoreTurn(start, n, password, so, ch);
        n, turn := n + 1, turn + 1;
        pos := FindLf(buffer);
      }
      TurnsDrain(start, n, password, choices);
      DrainStops(State(), password, choices);
    }

    /** The body of the inner loop. */
    method ServeLine(pos: nat, clock: Clock, info: string) returns (ghost ch: Choice)
      requires parser.Valid() && |choices| == |lines| && HasLine(State()) && pos == FindLf(buffer).value
      modifies this, parser.store.shards, parser.store`contents, parser.aof
      ensures parser.Valid() && |choices| == |lines| && choices == old(choices) + [ch]
      ensures |buffer| < |old(buffer)|
      ensures State() == Turn(old(State()), parser.password, choices)
      ensures var c := old(State());
              Allowed(c.db, c.authenticated, parser.password, ParseRequest(FirstLine(c)), ch)
    {
      hide Run, Allowed, Shards.Represents, FlatStore.Tidy, ParseRequest, FindLf;
      var line := buffer[..pos + 1];
      buffer := buffer[pos + 1..];
      var reply, close, now;
      reply, close, now, ch := parser.Execute(line, authenticated, clock, info);
      authenticated, sent := now, sent + reply;
      if close {
        buffer, open := "", false;
      }
      lines, choices := lines + [line], choices + [ch];
    }
  }

  lemma NoTurns(c: Client, password: string, choices: seq<Choice>)
    ensures Turns(c, 0, password, choices) == c && AllowedTurns(c, 0, password, choices)
  {
  }

  lemma DrainStops(c: Client, password: string, choices: seq<Choice>)
    requires !HasLine(c)
    ensures Drain(c, password, choices) == c
  {
  }
}
