/** The line framing of the demo's MCP client (examples/agent-demo/run.ts): a request reads chunks
    until it has the line that answers it. */
module McpFraming {
  import opened Lists
  import opened Options
  import opened Strings

  /** What becomes of a line: `JSON.parse` or the look at its id throws, or it is a message. */
  datatype Parsed = Fault | Message(id: Option<int>, body: string)

  type Parser = string -> Parsed

  datatype Outcome = Answered(body: string) | Faulted(line: string) | Closed

  // --- What a request answers ---

  function Concat(chunks: seq<string>): string {
    if chunks == [] then "" else chunks[0] + Concat(chunks[1..])
  }

  /** The lines, each with its newline. */
  function Joined(lines: seq<string>): string {
    if lines == [] then "" else Joined(lines[..|lines|-1]) + lines[|lines|-1] + "\n"
  }

  /** A request for `id` passes over blank lines and over messages with another id. */
  predicate IsPassedOver(parse: Parser, id: int, line: string) {
    '\n' !in line && (Trim(line) == "" || (parse(Trim(line)).Message? && parse(Trim(line)).id != Some(id)))
  }

  /** The line that ends a request, and how. */
  predicate Ends(parse: Parser, id: int, line: string, outcome: Outcome) {
    && '\n' !in line && Trim(line) != ""
    && match parse(Trim(line))
       case Fault => outcome == Faulted(Trim(line))
       case Message(other, body) => other == Some(id) && outcome == Answered(body)
  }

  /** What follows the lines that were passed over: the line that ends the request, or too little
      for another line. */
  predicate IsEnding(parse: Parser, id: int, text: string, outcome: Outcome, rest: string) {
    var line := Before(text, '\n');
    if |line| == |text| then outcome == Closed && rest == text
    else Ends(parse, id, line, outcome) && rest == text[|line| + 1..]
  }

  ghost predicate IsAnswerAfter(parse: Parser, id: int, text: string, passed: seq<string>, outcome: Outcome, rest: string) {
    && (forall line :: line in passed ==> IsPassedOver(parse, id, line))
    && |Joined(passed)| <= |text| && text[..|Joined(passed)|] == Joined(passed)
    && IsEnding(parse, id, text[|Joined(passed)|..], outcome, rest)
  }

  /** The request for `id` on the text ends as told, with `rest` unread. */
  ghost predicate IsAnswer(parse: Parser, id: int, text: string, outcome: Outcome, rest: string) {
    exists passed :: IsAnswerAfter(parse, id, text, passed, outcome, rest)
  }

  // --- The client ---

  class McpClient {
    const parse: Parser
    var buffer: string
    var chunks: seq<string>
    var nextId: int

    /** Everything that the server has sent and the client has not consumed. */
    ghost function Unconsumed(): string
      reads this
    {
      buffer + Concat(chunks)
    }

    constructor (parse: Parser, chunks: seq<string>)
      ensures this.parse == parse && nextId == 1 && Unconsumed() == Concat(chunks)
    {
      this.parse, this.chunks := parse, chunks;
      buffer, nextId := "", 1;
    }

    /** Ends as the unconsumed text tells, however it is cut into chunks; what is left in the
        buffer and in the unread chunks is exactly the text after the line that ended it. */
    method Request() returns (outcome: Outcome)
      modifies this
      ensures nextId == old(nextId) + 1
      ensures IsAnswer(parse, old(nextId), old(Unconsumed()), outcome, Unconsumed())
    {
      var id := nextId;
      nextId := nextId + 1;
      ghost var text := Unconsumed();
      ghost var passed: seq<string> := [];
      while true
        invariant nextId == id + 1
        invariant HasPassed(parse, id, text, passed, Unconsumed())
        decreases |chunks|, |buffer|
      {
        var newline := |Before(buffer, '\n')|;
        if newline == |buffer| {
          if chunks == [] {
            EndOfText(parse, id, text, passed, buffer);
            return Closed;
          }
          var value := chunks[0];
          ReadOn(buffer, chunks);
          buffer := buffer + value;
          chunks := chunks[1..];
          continue;
        }
        var raw := buffer[..newline];
        var line := Trim(raw);
        ghost var after := buffer[newline + 1..] + Concat(chunks);
        TakeLine(buffer, Concat(chunks));
        buffer := buffer[newline + 1..];
        if line == "" {
          PassOver(parse, id, text, passed, raw, after);
          passed := passed + [raw];
          continue;
        }
        var parsed := parse(line);
        if parsed.Fault? {
          EndOfRequest(parse, id, text, passed, raw, after, Faulted(line));
          return Faulted(line);
        }
        if parsed.id == Some(id) {
          EndOfRequest(parse, id, text, passed, raw, after, Answered(parsed.body));
          return Answered(parsed.body);
        }
        PassOver(parse, id, text, passed, raw, after);
        passed := passed + [raw];
      }
    }
  }

  /** The lines passed over so far, and what is left. */
  ghost predicate HasPassed(parse: Parser, id: int, text: string, passed: seq<string>, rest: string) {
    (forall line :: line in passed ==> IsPassedOver(parse, id, line)) && text == Joined(passed) + rest
  }

  lemma ReadOn(buffer: string, chunks: seq<string>)
    requires chunks != []
    ensures buffer + Concat(chunks) == (buffer + chunks[0]) + Concat(chunks[1..])
  {
    Regroup(buffer, chunks[0], Concat(chunks[1..]));
  }

  lemma TakeLine(buffer: string, more: string)
    requires |Before(buffer, '\n')| < |buffer|
    ensures var n := |Before(buffer, '\n')|;
      buffer + more == buffer[..n] + "\n" + (buffer[n + 1..] + more) && '\n' !in buffer[..n]
  {
    var n := |Before(buffer, '\n')|;
    assert buffer == buffer[..n] + "\n" + buffer[n + 1..];
    Regroup(buffer[..n] + "\n", buffer[n + 1..], more);
  }

  lemma PassOver(parse: Parser, id: int, text: string, passed: seq<string>, line: string, after: string)
    requires HasPassed(parse, id, text, passed, line + "\n" + after) && IsPassedOver(parse, id, line)
    ensures HasPassed(parse, id, text, passed + [line], after)
  {
    assert (passed + [line])[..|passed|] == passed;
    Regroup(Joined(passed), line + "\n", after);
    Regroup(Joined(passed), line, "\n");
  }

  lemma Suffix(text: string, a: string, b: string)
    requires text == a + b
    ensures |a| <= |text| && text[..|a|] == a && text[|a|..] == b
  {
  }

  lemma EndOfRequest(parse: Parser, id: int, text: string, passed: seq<string>, line: string, after: string, outcome: Outcome)
    requires HasPassed(parse, id, text, passed, line + "\n" + after) && Ends(parse, id, line, outcome)
    ensures IsAnswer(parse, id, text, outcome, after)
  {
    Suffix(text, Joined(passed), line + "\n" + after);
    BeforeFirst(line, '\n', after);
    assert (line + "\n" + after)[|line| + 1..] == after;
    assert IsAnswerAfter(parse, id, text, passed, outcome, after);
  }

  lemma EndOfText(parse: Parser, id: int, text: string, passed: seq<string>, rest: string)
    requires HasPassed(parse, id, text, passed, rest) && |Before(rest, '\n')| == |rest|
    ensures IsAnswer(parse, id, text, Closed, rest)
  {
    Suffix(text, Joined(passed), rest);
    assert IsAnswerAfter(parse, id, text, passed, Closed, rest);
  }

  // --- The answer is determined by the text ---

  lemma {:induction false} JoinedFirst(lines: seq<string>)
    requires lines != []
    ensures Joined(lines) == lines[0] + "\n" + Joined(lines[1..])
  {
    if |lines| == 1 {
      assert lines[..0] == [] && lines[1..] == [];
      assert Joined(lines) == lines[0] + "\n";
    } else {
      var front, last := lines[..|lines|-1], lines[|lines|-1];
      var rest := Joined(front[1..]);
      JoinedFirst(front);
      TailSlice(lines);
      assert Joined(lines[1..]) == rest + last + "\n";
      assert Joined(lines) == lines[0] + "\n" + rest + last + "\n";
      Regroup(lines[0] + "\n", rest, last);
      Regroup(lines[0] + "\n", rest + last, "\n");
    }
  }

  lemma TailSlice<T>(s: seq<T>)
    requires |s| > 1
    ensures s[1..] != [] && s[1..][..|s[1..]|-1] == s[..|s|-1][1..] && s[1..][|s[1..]|-1] == s[|s|-1]
  {
  }

  lemma FirstLine(text: string, line: string, more: string, end: string)
    requires '\n' !in line && text == (line + "\n" + more) + end
    ensures Before(text, '\n') == line && |line| < |text| && text[|line| + 1..] == more + end
  {
    Regroup(line + "\n", more, end);
    BeforeFirst(line, '\n', more + end);
  }

  /** The first of the lines that are passed over is the first line of the text. */
  lemma FirstPassed(parse: Parser, id: int, text: string, passed: seq<string>, outcome: Outcome, rest: string)
    requires passed != [] && IsAnswerAfter(parse, id, text, passed, outcome, rest)
    ensures var line := Before(text, '\n');
      && line == passed[0] && |line| < |text| && IsPassedOver(parse, id, line)
      && IsAnswerAfter(parse, id, text[|line| + 1..], passed[1..], outcome, rest)
  {
    var line, more, end := passed[0], Joined(passed[1..]), text[|Joined(passed)|..];
    assert line in passed && text == Joined(passed) + end;
    JoinedFirst(passed);
    FirstLine(text, line, more, end);
    Suffix(more + end, more, end);
  }

  lemma NothingPassed(parse: Parser, id: int, text: string, outcome: Outcome, rest: string)
    requires IsAnswerAfter(parse, id, text, [], outcome, rest)
    ensures IsEnding(parse, id, text, outcome, rest)
    ensures |Before(text, '\n')| < |text| ==> !IsPassedOver(parse, id, Before(text, '\n'))
  {
    assert text[|Joined([])|..] == text;
  }

  lemma {:induction false} SameAnswerAfter(parse: Parser, id: int, text: string,
      p: seq<string>, o: Outcome, r: string, q: seq<string>, u: Outcome, s: string)
    requires IsAnswerAfter(parse, id, text, p, o, r) && IsAnswerAfter(parse, id, text, q, u, s)
    ensures o == u && r == s
    decreases |p|
  {
    if p == [] {
      NothingPassed(parse, id, text, o, r);
      if q == [] {
        NothingPassed(parse, id, text, u, s);
      } else {
        FirstPassed(parse, id, text, q, u, s);
      }
    } else if q == [] {
      NothingPassed(parse, id, text, u, s);
      FirstPassed(parse, id, text, p, o, r);
    } else {
      FirstPassed(parse, id, text, p, o, r);
      FirstPassed(parse, id, text, q, u, s);
      SameAnswerAfter(parse, id, text[|Before(text, '\n')| + 1..], p[1..], o, r, q[1..], u, s);
    }
  }

  /** A request has one outcome on a text, and leaves one rest. */
  lemma AnswerIsUnique(parse: Parser, id: int, text: string, o: Outcome, r: string, u: Outcome, s: string)
    requires IsAnswer(parse, id, text, o, r) && IsAnswer(parse, id, text, u, s)
    ensures o == u && r == s
  {
    var p :| IsAnswerAfter(parse, id, text, p, o, r);
    var q :| IsAnswerAfter(parse, id, text, q, u, s);
    SameAnswerAfter(parse, id, text, p, o, r, q, u, s);
  }

  // --- Sessions ---

  /** Requests with consecutive ids, one after the other, end as told and leave `rest`. */
  ghost predicate IsSession(parse: Parser, id: int, text: string, outcomes: seq<Outcome>, rest: string)
    decreases |outcomes|
  {
    if outcomes == [] then rest == text
    else exists middle :: IsAnswer(parse, id, text, outcomes[0], middle) && IsSession(parse, id + 1, middle, outcomes[1..], rest)
  }

  lemma SessionGoesOn(parse: Parser, id: int, text: string, first: Outcome, middle: string, more: seq<Outcome>, rest: string)
    requires IsAnswer(parse, id, text, first, middle) && IsSession(parse, id + 1, middle, more, rest)
    ensures IsSession(parse, id, text, [first] + more, rest)
  {
    var outcomes := [first] + more;
    assert outcomes[0] == first && outcomes[1..] == more;
    assert IsAnswer(parse, id, text, outcomes[0], middle) && IsSession(parse, id + 1, middle, outcomes[1..], rest);
  }

  /** Any number of requests of a client, one after the other, are a session on its text. */
  method Requests(c: McpClient, n: nat) returns (outcomes: seq<Outcome>)
    modifies c
    ensures |outcomes| == n && c.nextId == old(c.nextId) + n
    ensures IsSession(c.parse, old(c.nextId), old(c.Unconsumed()), outcomes, c.Unconsumed())
    decreases n
  {
    if n == 0 {
      return [];
    }
    ghost var id, text := c.nextId, c.Unconsumed();
    var first := c.Request();
    ghost var middle := c.Unconsumed();
    var more := Requests(c, n - 1);
    SessionGoesOn(c.parse, id, text, first, middle, more, c.Unconsumed());
    outcomes := [first] + more;
  }

  /** Two clients that are sent the same text, in whatever chunks, see the same outcomes of any
      number of requests, and are left with the same text. */
  method RequestsOverChunks(parse: Parser, chunks: seq<string>, others: seq<string>, n: nat)
    returns (outcomes: seq<Outcome>, others': seq<Outcome>, c: McpClient, d: McpClient)
    requires Concat(chunks) == Concat(others)
    ensures outcomes == others' && |outcomes| == n
    ensures c.Unconsumed() == d.Unconsumed()
    ensures IsSession(parse, 1, Concat(chunks), outcomes, c.Unconsumed())
  {
    c := new McpClient(parse, chunks);
    d := new McpClient(parse, others);
    outcomes := Requests(c, n);
    others' := Requests(d, n);
    SessionIsUnique(parse, 1, Concat(chunks), outcomes, c.Unconsumed(), others', d.Unconsumed());
  }

  lemma SessionStarts(parse: Parser, id: int, text: string, os: seq<Outcome>, r: string) returns (m: string)
    requires os != [] && IsSession(parse, id, text, os, r)
    ensures IsAnswer(parse, id, text, os[0], m) && IsSession(parse, id + 1, m, os[1..], r)
  {
    m :| IsAnswer(parse, id, text, os[0], m) && IsSession(parse, id + 1, m, os[1..], r);
  }

  lemma {:induction false} SessionIsUnique(parse: Parser, id: int, text: string,
      os: seq<Outcome>, r: string, us: seq<Outcome>, s: string)
    requires |os| == |us| && IsSession(parse, id, text, os, r) && IsSession(parse, id, text, us, s)
    ensures os == us && r == s
    decreases |os|
  {
    if os != [] {
      var m := SessionStarts(parse, id, text, os, r);
      var n := SessionStarts(parse, id, text, us, s);
      AnswerIsUnique(parse, id, text, os[0], m, us[0], n);
      SessionIsUnique(parse, id + 1, m, os[1..], r, us[1..], s);
      assert os == [os[0]] + os[1..] && us == [us[0]] + us[1..];
    }
  }

  // --- A server that answers in order ---

  /** A reply on a line of its own, after lines that the request passes over. */
  datatype Reply = Reply(noise: seq<string>, line: string, body: string)

  ghost predicate IsReply(parse: Parser, id: int, reply: Reply) {
    && (forall line :: line in reply.noise ==> IsPassedOver(parse, id, line))
    && '\n' !in reply.line && Trim(reply.line) != "" && parse(Trim(reply.line)) == Message(Some(id), reply.body)
  }

  ghost predicate AreReplies(parse: Parser, id: int, replies: seq<Reply>)
    decreases |replies|
  {
    replies != [] ==> IsReply(parse, id, replies[0]) && AreReplies(parse, id + 1, replies[1..])
  }

  function Sent(replies: seq<Reply>): string {
    if replies == [] then "" else Joined(replies[0].noise) + (replies[0].line + "\n" + Sent(replies[1..]))
  }

  lemma SentFirst(replies: seq<Reply>, tail: string)
    requires replies != []
    ensures Sent(replies) + tail == Joined(replies[0].noise) + (replies[0].line + "\n" + (Sent(replies[1..]) + tail))
  {
    var noise, line, more := Joined(replies[0].noise), replies[0].line + "\n", Sent(replies[1..]);
    Regroup(line, more, tail);
    Regroup(noise, line + more, tail);
  }

  function ReplyOutcome(reply: Reply): Outcome { Answered(reply.body) }

  /** A server that answers every request in order, among notifications, blank lines and replies
      to others, is understood: every request gets its own reply and nothing more is consumed. */
  lemma {:induction false} RepliesInOrderAreUnderstood(parse: Parser, id: int, replies: seq<Reply>, tail: string)
    requires AreReplies(parse, id, replies)
    ensures IsSession(parse, id, Sent(replies) + tail, Map(ReplyOutcome, replies), tail)
    decreases |replies|
  {
    if replies != [] {
      var reply, more := replies[0], Sent(replies[1..]) + tail;
      RepliesInOrderAreUnderstood(parse, id + 1, replies[1..], tail);
      FirstReply(parse, id, replies, tail);
      SessionGoesOn(parse, id, Sent(replies) + tail, Answered(reply.body), more, Map(ReplyOutcome, replies[1..]), tail);
      FirstOutcome(replies);
    }
  }

  lemma FirstReply(parse: Parser, id: int, replies: seq<Reply>, tail: string)
    requires replies != [] && IsReply(parse, id, replies[0])
    ensures IsAnswer(parse, id, Sent(replies) + tail, Answered(replies[0].body), Sent(replies[1..]) + tail)
  {
    SentFirst(replies, tail);
    EndOfRequest(parse, id, Sent(replies) + tail, replies[0].noise, replies[0].line, Sent(replies[1..]) + tail, Answered(replies[0].body));
  }

  lemma FirstOutcome(replies: seq<Reply>)
    requires replies != []
    ensures Map(ReplyOutcome, replies) == [Answered(replies[0].body)] + Map(ReplyOutcome, replies[1..])
  {
  }

  lemma EndingIsReply(parse: Parser, id: int, end: string, body: string, rest: string)
    requires IsEnding(parse, id, end, Answered(body), rest)
    ensures var line := Before(end, '\n');
      end == line + "\n" + rest && '\n' !in line && Trim(line) != "" && parse(Trim(line)) == Message(Some(id), body)
  {
    CutFirst(end, '\n');
  }

  /** An answered request has passed over some noise, read its reply, and left the rest. */
  lemma AnswerIsReply(parse: Parser, id: int, text: string, body: string, rest: string) returns (reply: Reply)
    requires IsAnswer(parse, id, text, Answered(body), rest)
    ensures IsReply(parse, id, reply) && reply.body == body
    ensures text == Joined(reply.noise) + (reply.line + "\n" + rest)
  {
    var passed :| IsAnswerAfter(parse, id, text, passed, Answered(body), rest);
    var n := |Joined(passed)|;
    EndingIsReply(parse, id, text[n..], body, rest);
    reply := Reply(passed, Before(text[n..], '\n'), body);
    HeadAndRest(text, n);
  }

  lemma ReplyFirst(reply: Reply, more: seq<Reply>, text: string, middle: string, tail: string)
    requires text == Joined(reply.noise) + (reply.line + "\n" + middle) && middle == Sent(more) + tail
    ensures text == Sent([reply] + more) + tail
  {
    var replies := [reply] + more;
    assert replies[0] == reply && replies[1..] == more;
    SentFirst(replies, tail);
  }

  /** A session in which every request is answered consists of replies in order. */
  lemma {:induction false} AnsweredSessionIsReplies(parse: Parser, id: int, text: string, outcomes: seq<Outcome>, tail: string)
    returns (replies: seq<Reply>)
    requires IsSession(parse, id, text, outcomes, tail) && forall o :: o in outcomes ==> o.Answered?
    ensures AreReplies(parse, id, replies) && text == Sent(replies) + tail && Map(ReplyOutcome, replies) == outcomes
    decreases |outcomes|
  {
    if outcomes == [] {
      replies := [];
    } else {
      var first, later := outcomes[0], outcomes[1..];
      assert first in outcomes && forall o :: o in later ==> o in outcomes;
      var middle := SessionStarts(parse, id, text, outcomes, tail);
      var more := AnsweredSessionIsReplies(parse, id + 1, middle, later, tail);
      var reply := AnswerIsReply(parse, id, text, first.body, middle);
      replies := [reply] + more;
      ReplyFirst(reply, more, text, middle, tail);
      RepliesGoOn(parse, id, reply, more);
      HeadAndTail(outcomes);
    }
  }

  lemma RepliesGoOn(parse: Parser, id: int, reply: Reply, more: seq<Reply>)
    requires IsReply(parse, id, reply) && AreReplies(parse, id + 1, more)
    ensures AreReplies(parse, id, [reply] + more)
    ensures Map(ReplyOutcome, [reply] + more) == [Answered(reply.body)] + Map(ReplyOutcome, more)
  {
    assert ([reply] + more)[1..] == more;
    FirstOutcome([reply] + more);
  }

  /** The text begins with the replies to consecutive requests, in order, and leaves `tail`. */
  ghost predicate HasReplies(parse: Parser, id: int, text: string, outcomes: seq<Outcome>, tail: string) {
    exists replies :: AreReplies(parse, id, replies) && text == Sent(replies) + tail && Map(ReplyOutcome, replies) == outcomes
  }

  /** Every request is answered exactly when the text has their replies in the order of the requests,
      among lines that each of them passes over. */
  lemma AllAnsweredExactlyWhenInOrder(parse: Parser, id: int, text: string, outcomes: seq<Outcome>, tail: string)
    ensures IsSession(parse, id, text, outcomes, tail) && (forall o :: o in outcomes ==> o.Answered?)
      <==> HasReplies(parse, id, text, outcomes, tail)
  {
    if IsSession(parse, id, text, outcomes, tail) && forall o :: o in outcomes ==> o.Answered? {
      var replies := AnsweredSessionIsReplies(parse, id, text, outcomes, tail);
    }
    if replies :| AreReplies(parse, id, replies) && text == Sent(replies) + tail && Map(ReplyOutcome, replies) == outcomes {
      RepliesInOrderAreUnderstood(parse, id, replies, tail);
    }
  }

  /** A client that is sent the replies to its next requests in order gets each, and consumes no more. */
  method RequestsInOrder(c: McpClient, n: nat, ghost replies: seq<Reply>, ghost tail: string) returns (outcomes: seq<Outcome>)
    requires c.Unconsumed() == Sent(replies) + tail && AreReplies(c.parse, c.nextId, replies) && n == |replies|
    modifies c
    ensures outcomes == Map(ReplyOutcome, replies) && c.Unconsumed() == tail
  {
    ghost var id, text := c.nextId, c.Unconsumed();
    outcomes := Requests(c, n);
    RepliesInOrderAreUnderstood(c.parse, id, replies, tail);
    SessionIsUnique(c.parse, id, text, outcomes, c.Unconsumed(), Map(ReplyOutcome, replies), tail);
  }
}
