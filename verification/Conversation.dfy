/** What a client gets back for what it sends (src/TcpServer.cpp, the read loop in
    `start`): the replies to its lines, all of them and in order, until it quits. */
module Conversation {
  import opened Basics
  import opened Numerals
  import opened FlatStore
  import opened Replay
  import opened Resp
  import opened Commands
  import opened Replies
  import opened Framing
  import opened Wire
  import opened CommandLaws
  import opened KeyLaws

  // ---- the bytes sent --------------------------------------------------------------

  function ReplyTo(c: Client, password: string, choices: seq<Choice>): string
    requires HasLine(c)
  {
    Run(c.db, c.authenticated, password, FirstLine(c), ChoiceAt(choices, |c.lines|)).reply
  }

  /** The replies to the lines executed in n turns, one for each line, in line order. */
  function RepliesOf(c: Client, n: nat, password: string, choices: seq<Choice>): seq<string> {
    if n == 0 then [] else
      var before, d := RepliesOf(c, n - 1, password, choices), Turns(c, n - 1, password, choices);
      if HasLine(d) then before + [ReplyTo(d, password, choices)] else before
  }

  /** One more turn. */
  lemma OneTurn(c: Client, n: nat, password: string, choices: seq<Choice>)
    requires n > 0
    ensures var d, e := Turns(c, n - 1, password, choices), Turns(c, n, password, choices);
            var before, replies := RepliesOf(c, n - 1, password, choices), RepliesOf(c, n, password, choices);
            if !HasLine(d) then e == d && replies == before
            else
              && e.sent == d.sent + ReplyTo(d, password, choices) && e.lines == d.lines + [FirstLine(d)]
              && replies == before + [ReplyTo(d, password, choices)]
  {
    hide Run, FindLf;
  }

  lemma JoinedSnoc(pieces: seq<string>, piece: string)
    ensures Joined(pieces + [piece]) == Joined(pieces) + piece
  {
    assert (pieces + [piece])[..|pieces|] == pieces;
  }

  /** What has been sent is those replies, one after the other, and nothing else; there is
      one for every line executed. */
  lemma {:induction false} SentIsReplies(c: Client, n: nat, password: string, choices: seq<Choice>)
    ensures var d := Turns(c, n, password, choices);
            var replies := RepliesOf(c, n, password, choices);
            d.sent == c.sent + Joined(replies) && |d.lines| == |c.lines| + |replies| && c.lines <= d.lines
  {
    if n == 0 {
      assert c.sent + "" == c.sent;
    } else {
      hide Turns, RepliesOf, ReplyTo, FirstLine, HasLine, Joined;
      SentIsReplies(c, n - 1, password, choices);
      OneTurn(c, n, password, choices);
      var d, replies := Turns(c, n - 1, password, choices), RepliesOf(c, n - 1, password, choices);
      if HasLine(d) {
        var reply := ReplyTo(d, password, choices);
        JoinedSnoc(replies, reply);
        Assoc(c.sent, Joined(replies), reply);
      }
    }
  }

  // ---- reading them ------------------------------------------------------------------

  /** A value that has been read is not read differently when more follows. */
  lemma {:induction false} LineExtends(s: string, t: string)
    requires ReadLine(s).Some?
    ensures ReadLine(s + t) == Some((ReadLine(s).value.0, ReadLine(s).value.1 + t))
  {
    if s[0] == '\r' {
      assert (s + t)[2..] == s[2..] + t;
    } else {
      assert (s + t)[1..] == s[1..] + t;
      LineExtends(s[1..], t);
    }
  }

  lemma BulkExtends(n: int, s: string, t: string)
    requires ReadBulk(n, s).Some?
    ensures ReadBulk(n, s + t) == Some((ReadBulk(n, s).value.0, ReadBulk(n, s).value.1 + t))
  {
    if n >= 0 {
      assert (s + t)[n..n + 2] == s[n..n + 2] && (s + t)[..n] == s[..n] && (s + t)[n + 2..] == s[n + 2..] + t;
    }
  }

  lemma {:induction false} ValueExtends(s: string, t: string)
    requires ReadValue(s).Some?
    ensures ReadValue(s + t) == Some((ReadValue(s).value.0, ReadValue(s).value.1 + t))
    decreases |s|, 0
  {
    hide ReadLine, ReadNumber, ReadBulk;
    assert (s + t)[0] == s[0] && (s + t)[1..] == s[1..] + t;
    LineExtends(s[1..], t);
    var (text, rest) := ReadLine(s[1..]).value;
    if s[0] == '$' {
      BulkExtends(ReadNumber(text).value, rest, t);
    } else if s[0] == '*' {
      ValuesExtend(rest, ReadNumber(text).value, t);
    }
  }

  lemma {:induction false} ValuesExtend(s: string, n: nat, t: string)
    requires ReadValues(s, n).Some?
    ensures ReadValues(s + t, n) == Some((ReadValues(s, n).value.0, ReadValues(s, n).value.1 + t))
    decreases |s|, 1
  {
    hide ReadValue;
    if n > 0 {
      ValueExtends(s, t);
      ValuesExtend(ReadValue(s).value.1, n - 1, t);
    }
  }

  predicate EachOneValue(replies: seq<string>) {
    forall i :: 0 <= i < |replies| ==> replies[i] == "" || IsOneValue(replies[i])
  }

  /** The values of the replies that are not empty, in order. */
  function ValuesOf(replies: seq<string>): seq<RespValue>
    requires EachOneValue(replies)
  {
    if replies == [] then [] else
      var n := |replies| - 1;
      var last := replies[n];
      if last == "" then ValuesOf(replies[..n]) else ValuesOf(replies[..n]) + [ReadValue(last).value.0]
  }

  lemma {:induction false} RepliesAreRead(replies: seq<string>, rest: string)
    requires EachOneValue(replies)
    ensures ReadValues(Joined(replies) + rest, |ValuesOf(replies)|) == Some((ValuesOf(replies), rest))
  {
    hide ReadValue;
    if replies == [] {
      assert "" + rest == rest;
    } else {
      var n := |replies| - 1;
      var before, last := replies[..n], replies[n];
      assert Joined(replies) == Joined(before) + last;
      if last == "" {
        assert Joined(before) + "" == Joined(before);
        RepliesAreRead(before, rest);
      } else {
        Assoc(Joined(before), last, rest);
        RepliesAreRead(before, last + rest);
        ValueExtends(last, rest);
        assert "" + rest == rest;
        ReadOneMore(Joined(before) + (last + rest), |ValuesOf(before)|, ValuesOf(before), last + rest,
                    ReadValue(last).value.0, rest);
      }
    }
  }

  // ---- a conversation ----------------------------------------------------

  /** How many of the lines ask for something. */
  function Asking(lines: seq<string>): nat {
    if lines == [] then 0 else
      var n := |lines| - 1;
      Asking(lines[..n]) + if ParseRequest(lines[n]) == [] then 0 else 1
  }

  /** The replies are values, one for each of the lines from `from` on that asks. */
  ghost predicate Answers(replies: seq<string>, lines: seq<string>, from: nat) {
    from <= |lines| && EachOneValue(replies) && |ValuesOf(replies)| == Asking(lines[from..])
  }

  lemma {:induction false} EachLineIsAnswered(c: Client, n: nat, password: string, choices: seq<Choice>)
    ensures Answers(RepliesOf(c, n, password, choices), Turns(c, n, password, choices).lines, |c.lines|)
  {
    hide Turns, RepliesOf, ReplyTo, FirstLine, HasLine, Answers;
    if n == 0 {
      NoTurn(c, password, choices);
    } else {
      OneTurn(c, n, password, choices);
      var d := Turns(c, n - 1, password, choices);
      if HasLine(d) {
        SentIsReplies(c, n - 1, password, choices);
        EachLineIsAnswered(c, n - 1, password, choices);
        LineIsAnswered(d, password, choices);
        OneMoreAnswer(RepliesOf(c, n - 1, password, choices), d.lines, |c.lines|, FirstLine(d),
                      ReplyTo(d, password, choices));
      } else {
        EachLineIsAnswered(c, n - 1, password, choices);
      }
    }
  }

  lemma NoTurn(c: Client, password: string, choices: seq<Choice>)
    ensures Answers(RepliesOf(c, 0, password, choices), Turns(c, 0, password, choices).lines, |c.lines|)
  {
    assert c.lines[|c.lines|..] == [];
  }

  lemma FirstLineIsLine(c: Client)
    requires HasLine(c)
    ensures IsLine(FirstLine(c))
  {
    var n := FindLf(c.buffer).value;
    assert FirstLine(c)[..n] == c.buffer[..n];
  }

  lemma LineIsAnswered(c: Client, password: string, choices: seq<Choice>)
    requires HasLine(c)
    ensures var reply := ReplyTo(c, password, choices);
            && (reply == "" <==> ParseRequest(FirstLine(c)) == [])
            && (reply == "" || IsOneValue(reply))
  {
    hide Run, FindLf, IsOneValue, ParseRequest;
    var ch := ChoiceAt(choices, |c.lines|);
    FirstLineIsLine(c);
    LineIsWords(FirstLine(c));
    PlainTextRepliesAreValues(c.db, c.authenticated, password, FirstLine(c), ch);
    EmptyIff(c.db, c.authenticated, password, FirstLine(c), ch);
  }

  lemma OneMoreAnswer(replies: seq<string>, lines: seq<string>, from: nat, line: string, reply: string)
    requires Answers(replies, lines, from) && (reply == "" <==> ParseRequest(line) == [])
    requires reply == "" || IsOneValue(reply)
    ensures Answers(replies + [reply], lines + [line], from)
  {
    hide IsOneValue, ReadValue, ParseRequest;
    var asked := lines[from..];
    assert (replies + [reply])[..|replies|] == replies;
    assert (lines + [line])[from..] == asked + [line];
    assert (asked + [line])[..|asked|] == asked;
  }

  lemma EmptyIff(db: Db, authenticated: bool, password: string, raw: string, ch: Choice)
    ensures Run(db, authenticated, password, raw, ch).reply == "" <==> ParseRequest(raw) == []
  {
    hide Run, IsOneValue;
    ReplyIsOneValue(db, authenticated, password, raw, ch);
  }

  /** A client reads, from what it is sent, exactly one value for every line that asks for
      something, in line order, with nothing left over: whatever it has sent. */
  lemma ConversationIsRead(c: Client, n: nat, password: string, choices: seq<Choice>)
    requires c.sent == ""
    ensures var d, replies := Turns(c, n, password, choices), RepliesOf(c, n, password, choices);
            && EachOneValue(replies) && |c.lines| <= |d.lines|
            && |ValuesOf(replies)| == Asking(d.lines[|c.lines|..])
            && ReadValues(d.sent, Asking(d.lines[|c.lines|..])) == Some((ValuesOf(replies), ""))
  {
    hide Turns, RepliesOf, EachOneValue, ReadValues, Asking;
    var replies := RepliesOf(c, n, password, choices);
    EachLineIsAnswered(c, n, password, choices);
    SentIsReplies(c, n, password, choices);
    RepliesAreRead(replies, "");
    assert "" + Joined(replies) == Joined(replies) && Joined(replies) + "" == Joined(replies);
  }

  // ---- its end --------------------------------------------------------------------------

  predicate IsQuit(line: string) {
    var tokens := ParseRequest(line); tokens != [] && ToUpper(tokens[0]) == "QUIT"
  }

  predicate SomeQuits(lines: seq<string>, from: nat) {
    exists i :: from <= i < |lines| && IsQuit(lines[i])
  }

  /** The session is closed exactly when a line executed was QUIT; that line was the last,
      and what had arrived after it is dropped. */
  lemma {:induction false} ClosedIffQuit(c: Client, n: nat, password: string, choices: seq<Choice>)
    requires c.open
    ensures var d := Turns(c, n, password, choices);
            && c.lines <= d.lines
            && (!d.open <==> SomeQuits(d.lines, |c.lines|))
            && (!d.open ==> d.buffer == "" && |d.lines| > |c.lines| && IsQuit(d.lines[|d.lines| - 1])
                            && !SomeQuits(d.lines[..|d.lines| - 1], |c.lines|))
  {
    hide Turn, FindLf, IsQuit;
    if n > 0 {
      var d, e := Turns(c, n - 1, password, choices), Turns(c, n, password, choices);
      ClosedIffQuit(c, n - 1, password, choices);
      if HasLine(d) {
        TurnQuits(d, password, choices);
        assert e.lines == d.lines + [FirstLine(d)] && e.lines[..|d.lines|] == d.lines;
        assert e.lines[|d.lines|] == FirstLine(d);
        assert forall i :: |c.lines| <= i < |d.lines| ==> e.lines[i] == d.lines[i];
      }
    }
  }

  lemma TurnQuits(c: Client, password: string, choices: seq<Choice>)
    requires HasLine(c)
    ensures var d := Turn(c, password, choices);
            (d.open <==> !IsQuit(FirstLine(c))) && (!d.open ==> d.buffer == "")
  {
    hide Run, ParseRequest, ToUpper, FindLf;
    AuthenticationGate(c.db, c.db, c.authenticated, password, FirstLine(c),
                       ChoiceAt(choices, |c.lines|), ChoiceAt(choices, |c.lines|));
  }

  // ---- arrays over a connection -----------------------------------------------------------

  lemma WordLine(word: string)
    requires Bare(word)
    ensures IsLine(word + CRLF) && ParseRequest(word + CRLF) == [word]
  {
    hide ParseArray, FindCrlf, Stoi;
    var line := word + CRLF;
    assert line[..|line| - 1] == word + "\r" && line[0] == word[0];
    LineIsWords(line);
    SplitBare(word, CRLF, [], "");
    assert "" + word == word && [] + [word] == [word];
    assert CRLF[1..] == "\n" && "\n"[1..] == "";
    assert SplitFrom("", [], word, None) == [word];
    assert SplitFrom("\n", [], word, None) == [word];
    assert SplitFrom(CRLF, [], word, None) == [word];
  }

  /** The line that announces an array, or a bulk string. */
  function Announced(mark: char, n: nat): string {
    [mark] + Decimal(n)
  }

  lemma HeaderIsBare(mark: char, n: nat)
    requires mark == '*' || mark == '$'
    ensures Bare(Announced(mark, n)) && Unbroken(Announced(mark, n))
    ensures ToUpper(Announced(mark, n)) !in NAMES
  {
    hide Decimal;
    var word := Announced(mark, n);
    assert forall i :: 1 <= i < |word| ==> word[i] == Decimal(n)[i - 1];
    assert ToUpper(word)[0] == mark;
    NamesAreLetters(ToUpper(word));
  }

  lemma NamesAreLetters(name: string)
    requires name != "" && (name[0] == '*' || name[0] == '$')
    ensures name !in NAMES
  {
  }

  lemma FirstLineIs(c: Client, line: string, tail: string)
    requires c.open && c.buffer == line + tail && IsLine(line)
    ensures HasLine(c) && FirstLine(c) == line
  {
    var n := |line| - 1;
    assert c.buffer[n] == '\n' && c.buffer[..n] == line[..n];
    var m := FindLf(c.buffer).value;
    assert forall i :: 0 <= i < m ==> c.buffer[..m][i] != '\n';
    assert forall i :: 0 <= i < n ==> line[..n][i] != '\n';
    assert m == n;
    assert (line + tail)[..|line|] == line;
  }

  /** The header of an array, or of a bulk string, comes to a connection as a line of its
      own and is answered as an unknown command: clients that send arrays get an error for
      each of them. */
  lemma HeaderIsUnknown(c: Client, mark: char, n: nat, tail: string, password: string, choices: seq<Choice>)
    requires c.open && !Locked(c.authenticated, password) && (mark == '*' || mark == '$')
    requires c.buffer == Announced(mark, n) + CRLF + tail
    ensures HasLine(c)
    ensures var d, word := Turn(c, password, choices), Announced(mark, n);
            && d == Client(c.db, c.authenticated, true, tail, c.lines + [word + CRLF], d.sent)
            && d.sent == c.sent + ReplyTo(c, password, choices)
            && Is(ReplyTo(c, password, choices), Failure("ERR " + ("unknown command '" + word + "'")))
  {
    hide Decimal, Is, ParseRequest, ToUpper, FindLf, IsLine;
    var word := Announced(mark, n);
    var line := word + CRLF;
    HeaderIsBare(mark, n);
    WordLine(word);
    FirstLineIs(c, line, tail);
    UnknownHeader(c.db, c.authenticated, password, line, word, ChoiceAt(choices, |c.lines|));
    assert c.buffer[|line|..] == tail;
  }

  lemma UnknownHeader(db: Db, authenticated: bool, password: string, raw: string, word: string, ch: Choice)
    requires !Locked(authenticated, password) && ParseRequest(raw) == [word]
    requires ToUpper(word) !in NAMES && Unbroken(word)
    ensures var o := Run(db, authenticated, password, raw, ch);
            && o == Outcome(db, authenticated, o.reply, false)
            && Is(o.reply, Failure("ERR " + ("unknown command '" + word + "'")))
  {
    hide ParseRequest, Is, ToUpper, NAMES, RunData, VerbOf, Unbroken;
    UnknownName(ToUpper(word));
    UnknownLaw(db, authenticated, password, raw, ch, ToUpper(word));
    RunIs(db, authenticated, password, raw, ch, ToUpper(word));
  }

  /** A request of one word, PING or DBSIZE say, sent as an array: two errors, and only
      then the reply to the word. */
  lemma WordAsArray(c: Client, word: string, password: string, choices: seq<Choice>)
    requires c.open && !Locked(c.authenticated, password) && Bare(word) && c.buffer == Array([word])
    ensures var d, replies := Turns(c, 3, password, choices), RepliesOf(c, 3, password, choices);
            var (count, length) := (Announced('*', 1), Announced('$', |word|));
            && d.lines == c.lines + [count + CRLF, length + CRLF, word + CRLF] && d.buffer == "" && |replies| == 3
            && Is(replies[0], Failure("ERR " + ("unknown command '" + count + "'")))
            && Is(replies[1], Failure("ERR " + ("unknown command '" + length + "'")))
            && ParseRequest(word + CRLF) == [word]
            && replies[2] == Run(c.db, c.authenticated, password, word + CRLF, ChoiceAt(choices, |c.lines| + 2)).reply
  {
    hide Announced, Is, Turn, Turns, ReplyTo, RepliesOf, HasLine, Array, ParseRequest, Run, Bare;
    TwoHeaders(c, word, password, choices);
    var d := Turn(c, password, choices);
    var e := Turn(d, password, choices);
    LastLine(e, word, password, choices);
    ThreeTurns(c, d, e, password, choices);
    ThreeMore(c.lines, Announced('*', 1) + CRLF, Announced('$', |word|) + CRLF, word + CRLF);
  }

  lemma TwoHeaders(c: Client, word: string, password: string, choices: seq<Choice>)
    requires c.open && !Locked(c.authenticated, password) && c.buffer == Array([word])
    ensures HasLine(c) && HasLine(Turn(c, password, choices))
    ensures var d := Turn(c, password, choices);
            var e := Turn(d, password, choices);
            var (count, length) := (Announced('*', 1), Announced('$', |word|));
            && e.lines == c.lines + [count + CRLF] + [length + CRLF]
            && e.buffer == word + CRLF && e.open && e.authenticated == c.authenticated && e.db == c.db
            && Is(ReplyTo(c, password, choices), Failure("ERR " + ("unknown command '" + count + "'")))
            && Is(ReplyTo(d, password, choices), Failure("ERR " + ("unknown command '" + length + "'")))
  {
    hide Announced, Is, Turn, ReplyTo, HasLine, Array;
    OneWordBytes(word);
    HeaderIsUnknown(c, '*', 1, Announced('$', |word|) + CRLF + (word + CRLF), password, choices);
    HeaderIsUnknown(Turn(c, password, choices), '$', |word|, word + CRLF, password, choices);
  }

  lemma ThreeMore<T>(s: seq<T>, a: T, b: T, c: T)
    ensures s + [a] + [b] + [c] == s + [a, b, c]
  {
  }

  lemma OneWordBytes(word: string)
    ensures Array([word]) == Announced('*', 1) + CRLF + (Announced('$', |word|) + CRLF + (word + CRLF))
  {
    hide Decimal;
    assert [word][1..] == [];
    Assoc(Announced('$', |word|) + CRLF, word, CRLF);
    assert Bulks([word]) == Bulk(word);
  }

  lemma LastLine(c: Client, word: string, password: string, choices: seq<Choice>)
    requires c.open && Bare(word) && c.buffer == word + CRLF
    ensures HasLine(c) && ParseRequest(word + CRLF) == [word]
    ensures var d := Turn(c, password, choices); d.buffer == "" && d.lines == c.lines + [word + CRLF]
    ensures ReplyTo(c, password, choices)
            == Run(c.db, c.authenticated, password, word + CRLF, ChoiceAt(choices, |c.lines|)).reply
  {
    hide ParseRequest, FindLf, IsLine, Run, Bare;
    WordLine(word);
    assert word + CRLF == word + CRLF + "";
    FirstLineIs(c, word + CRLF, "");
  }

  lemma ThreeTurns(c: Client, d: Client, e: Client, password: string, choices: seq<Choice>)
    requires HasLine(c) && d == Turn(c, password, choices)
    requires HasLine(d) && e == Turn(d, password, choices) && HasLine(e)
    ensures Turns(c, 3, password, choices) == Turn(e, password, choices)
    ensures RepliesOf(c, 3, password, choices)
            == [ReplyTo(c, password, choices), ReplyTo(d, password, choices), ReplyTo(e, password, choices)]
  {
    hide Turn, ReplyTo, HasLine, FindLf;
    assert Turns(c, 0, password, choices) == c && RepliesOf(c, 0, password, choices) == [];
    assert Turns(c, 1, password, choices) == d;
    assert RepliesOf(c, 1, password, choices) == [ReplyTo(c, password, choices)];
    assert Turns(c, 2, password, choices) == e;
  }
}
