/** The transcript is the conversation: whatever each side hashes is exactly the handshake messages
    it heard and spoke, in order, with the messages before a HelloRetryRequest standing as their hash
    (section 4.4.1 of RFC 8446). */
module Conversation {
  import opened Bytes
  import opened Symbols
  import CM = ClientMachine
  import CP = ClientProofs
  import CR = ClientRuns
  import SM = ServerMachine
  import SP = ServerProofs
  import SR = ServerRuns
  import opened Agreement

  predicate IsRetry(m: Message)
  {
    m.ServerHello? && m.random == RetryRandom
  }

  predicate HasRetry(ms: seq<Message>)
  {
    exists i :: 0 <= i < |ms| && IsRetry(ms[i])
  }

  /** How many messages precede the first retry request. */
  function BeforeRetry(ms: seq<Message>): (n: nat)
    ensures n <= |ms|
    ensures forall i :: 0 <= i < n ==> !IsRetry(ms[i])
    ensures n < |ms| ==> IsRetry(ms[n])
  {
    if ms == [] || IsRetry(ms[0]) then 0 else 1 + BeforeRetry(ms[1..])
  }

  /** What is hashed of a conversation. */
  function TranscriptOf(ms: seq<Message>): seq<Item>
  {
    var n := BeforeRetry(ms);
    if n == |ms| then Wholes(ms)
    else [Restart(Digest(AlgOf(ms[n].suite), Wholes(ms[..n])))] + Wholes(ms[n..])
  }

  lemma NoRetry(ms: seq<Message>)
    requires !HasRetry(ms)
    ensures BeforeRetry(ms) == |ms| && TranscriptOf(ms) == Wholes(ms)
  {
  }

  lemma {:induction false} RetryStays(ms: seq<Message>, more: seq<Message>)
    requires HasRetry(ms) || !HasRetry(more)
    ensures HasRetry(ms) ==> BeforeRetry(ms + more) == BeforeRetry(ms) < |ms|
    ensures !HasRetry(ms) ==> !HasRetry(ms + more)
    ensures HasRetry(ms) ==> HasRetry(ms + more)
  {
    if HasRetry(ms) {
      var i :| 0 <= i < |ms| && IsRetry(ms[i]);
      assert IsRetry((ms + more)[i]);
      SameBefore(ms, more);
    } else {
      forall i | 0 <= i < |ms + more| ensures !IsRetry((ms + more)[i]) {
      }
    }
  }

  lemma SameBefore(ms: seq<Message>, more: seq<Message>)
    requires HasRetry(ms)
    ensures BeforeRetry(ms + more) == BeforeRetry(ms) < |ms|
  {
    var (m, n) := (BeforeRetry(ms), BeforeRetry(ms + more));
    var i :| 0 <= i < |ms| && IsRetry(ms[i]);
    assert forall k :: 0 <= k < |ms| ==> (ms + more)[k] == ms[k];
    assert IsRetry((ms + more)[m]);
  }

  lemma AppendLater(ms: seq<Message>, more: seq<Message>)
    requires HasRetry(ms)
    ensures TranscriptOf(ms + more) == TranscriptOf(ms) + Wholes(more)
  {
    SameBefore(ms, more);
    var n := BeforeRetry(ms);
    hide BeforeRetry, HasRetry;
    assert (ms + more)[..n] == ms[..n] && (ms + more)[n..] == ms[n..] + more;
    assert (ms + more)[n] == ms[n];
    WholesAppend(ms[n..], more);
    var start := [Restart(Digest(AlgOf(ms[n].suite), Wholes(ms[..n])))];
    assert start + (Wholes(ms[n..]) + Wholes(more)) == (start + Wholes(ms[n..])) + Wholes(more);
  }

  /** Ordinary messages are appended. */
  lemma AppendPlain(ms: seq<Message>, more: seq<Message>)
    requires !HasRetry(more)
    ensures TranscriptOf(ms + more) == TranscriptOf(ms) + Wholes(more)
    ensures HasRetry(ms + more) <==> HasRetry(ms)
  {
    RetryStays(ms, more);
    if HasRetry(ms) {
      AppendLater(ms, more);
    } else {
      NoRetry(ms);
      NoRetry(ms + more);
      WholesAppend(ms, more);
    }
  }

  /** A first retry request restarts the transcript. */
  lemma AppendRetry(ms: seq<Message>, m: Message, more: seq<Message>)
    requires !HasRetry(ms) && IsRetry(m)
    ensures TranscriptOf(ms + ([m] + more)) ==
            [Restart(Digest(AlgOf(m.suite), TranscriptOf(ms)))] + Wholes([m] + more)
    ensures HasRetry(ms + ([m] + more))
  {
    NoRetry(ms);
    var all := ms + ([m] + more);
    var n := BeforeRetry(all);
    assert all[|ms|] == m;
    assert forall k :: 0 <= k < |ms| ==> all[k] == ms[k];
    assert n == |ms|;
    assert all[..n] == ms && all[n..] == [m] + more;
  }

  // ------------------------------------------------------------------ the two logs

  /** The handshake messages the events send: all but those of the application epoch. */
  function Uttered(events: seq<Event>): seq<Message>
  {
    if events == [] then []
    else
      (match events[0] case Send(epoch, ms) => if epoch.Application? then [] else ms case _ => [])
      + Uttered(events[1..])
  }

  lemma {:induction false} UtteredAppend(a: seq<Event>, b: seq<Event>)
    ensures Uttered(a + b) == Uttered(a) + Uttered(b)
    decreases |a|
  {
    if a == [] {
      assert a + b == b;
    } else {
      assert (a + b)[1..] == a[1..] + b;
      UtteredAppend(a[1..], b);
    }
  }

  lemma {:induction false} SilentUtters(events: seq<Event>)
    requires forall i :: 0 <= i < |events| ==> !events[i].Send? || events[i].epoch.Application?
    ensures Uttered(events) == []
    decreases |events|
  {
    if events != [] {
      SilentUtters(events[1..]);
    }
  }

  lemma OneUttered(epoch: Epoch, ms: seq<Message>)
    requires !epoch.Application?
    ensures Uttered([Send(epoch, ms)]) == ms
  {
    assert [Send(epoch, ms)][1..] == [];
  }

  function ClientHears(input: CM.Input): seq<Message>
  {
    match input case Read(_, Some(m), _) => [m] case _ => []
  }

  function ServerHears(input: SM.Input): seq<Message>
  {
    match input case Read(_, Some(m), _) => [m] case _ => []
  }

  /** What the client heard and said until it was done. */
  function ClientLog(cfg: CM.Config, c: CM.Client, calls: seq<CR.Call>): seq<Message>
    decreases |calls|
  {
    if calls == [] then []
    else
      var (next, events) := CM.Step(cfg, c, calls[0].input, calls[0].room);
      (if c.phase.Done? then [] else ClientHears(calls[0].input) + Uttered(events)) + ClientLog(cfg, next, calls[1..])
  }

  /** What the server heard and said until it was done. */
  function ServerLog(cfg: SM.Config, s: SM.Server, calls: seq<SR.Call>): seq<Message>
    decreases |calls|
  {
    if calls == [] then []
    else
      var (next, events) := SM.Step(cfg, s, calls[0].input, calls[0].room);
      (if s.phase.Done? then [] else ServerHears(calls[0].input) + Uttered(events)) + ServerLog(cfg, next, calls[1..])
  }

  /** The transcript is that of the conversation so far. */
  ghost predicate ClientTalked(c: CM.Client, log: seq<Message>)
  {
    c.transcript.items == TranscriptOf(log) && (c.hrrDone <==> HasRetry(log))
  }

  ghost predicate ServerTalked(s: SM.Server, log: seq<Message>)
  {
    s.transcript.items == TranscriptOf(log) && (s.hrrDone <==> HasRetry(log))
  }

  // ----------------------------------------------------------------- client, one call

  /** These messages were appended, or the first of them restarted the transcript. */
  ghost predicate Grows(items: seq<Item>, retried: bool, said: seq<Message>, after: seq<Item>, retriedAfter: bool)
  {
    || (!HasRetry(said) && after == items + Wholes(said) && retriedAfter == retried)
    || (&& said != [] && IsRetry(said[0]) && !HasRetry(said[1..]) && !retried && retriedAfter
        && after == [Restart(Digest(AlgOf(said[0].suite), items))] + Wholes(said))
  }

  lemma Grown(items: seq<Item>, retried: bool, log: seq<Message>, said: seq<Message>, after: seq<Item>,
              retriedAfter: bool)
    requires items == TranscriptOf(log) && (retried <==> HasRetry(log))
    requires Grows(items, retried, said, after, retriedAfter)
    ensures after == TranscriptOf(log + said) && (retriedAfter <==> HasRetry(log + said))
  {
    if HasRetry(said) {
      assert said == [said[0]] + said[1..];
      AppendRetry(log, said[0], said[1..]);
    } else {
      AppendPlain(log, said);
    }
  }

  lemma StartTalks(cfg: CM.Config, c: CM.Client, d: CM.Draw)
    requires CM.Start(cfg, c, d).Next?
    ensures var o := CM.Start(cfg, c, d);
            Grows(c.transcript.items, c.hrrDone, Uttered(o.events), o.client.transcript.items, o.client.hrrDone)
  {
    hide CM.BoundHello, CM.PlainHello, CM.EarlyFor, CM.Aged, Uttered;
    var o := CM.Start(cfg, c, d);
    var m := o.events[0].messages[0];
    assert o.events == [Send(Plaintext, [m])] + o.events[1..];
    UtteredAppend([Send(Plaintext, [m])], o.events[1..]);
    OneUttered(Plaintext, [m]);
    SilentUtters(o.events[1..]);
    assert [m] + [] == [m];
    OnePush(c.transcript, m);
  }

  lemma ServerHelloTalks(cfg: CM.Config, c: CM.Client, m: Message, d: CM.Draw)
    requires m.ServerHello? && CM.OnServerHello(cfg, c, m, d).Next?
    ensures var o := CM.OnServerHello(cfg, c, m, d);
            Grows(c.transcript.items, c.hrrDone, [m] + Uttered(o.events), o.client.transcript.items, o.client.hrrDone)
  {
    hide CM.BoundHello, CM.PlainHello, CM.Aged, CM.ServerShare, CM.PskChoice, CM.RetryRequest, CM.Selecting, Uttered,
         CM.Agree, CM.AnswerRetry;
    var o := CM.OnServerHello(cfg, c, m, d);
    var chosen := CM.Selecting(cfg, c, m).value;
    SelectingKeepsItems(cfg, c, m);
    if IsRetry(m) {
      var (group, cookie) := CM.RetryRequest(chosen, m.extensions).value;
      var h1 := Hash(chosen.transcript, AlgOf(m.suite)).value;
      AnswerTalks(cfg, chosen.(transcript := Push(Restarted(AlgOf(m.suite), h1), m)), group, cookie, d);
      var h := o.events[0].messages[0];
      OneUttered(Plaintext, [h]);
      assert o.events[0].messages == [h];
      assert o.events == [Send(Plaintext, [h])];
      assert [m] + [h] == [m, h] && Wholes([m, h]) == [Whole(m), Whole(h)];
    } else {
      AgreeTalks(cfg, chosen, m, CM.ServerShare(m.extensions).value,
                 CM.PskChoice(c, AlgOf(m.suite), m.extensions).value);
      SilentUtters(o.events);
      assert [m] + [] == [m];
      OnePush(c.transcript, m);
    }
  }

  lemma SelectingKeepsItems(cfg: CM.Config, c: CM.Client, m: Message)
    requires m.ServerHello?
    ensures CM.Selecting(cfg, c, m).Some? ==>
            && CM.Selecting(cfg, c, m).value.transcript.items == c.transcript.items
            && CM.Selecting(cfg, c, m).value.hrrDone == c.hrrDone
  {
  }

  lemma AnswerTalks(cfg: CM.Config, c: CM.Client, group: Group, cookie: Option<nat>, d: CM.Draw)
    ensures var o := CM.AnswerRetry(cfg, c, group, cookie, d);
            o.Next? ==>
            && |o.events| == 1 && o.events[0].Send? && o.events[0].epoch.Plaintext? && |o.events[0].messages| == 1
            && o.events[0].messages[0].ClientHello? && o.client.hrrDone
            && o.client.transcript.items == c.transcript.items + [Whole(o.events[0].messages[0])]
  {
    hide CM.BoundHello, CM.PlainHello, CM.Aged;
  }

  lemma AgreeTalks(cfg: CM.Config, c: CM.Client, m: Message, share: Share, psk: bool)
    requires m.ServerHello?
    ensures var o := CM.Agree(cfg, c, m, share, psk);
            o.Next? ==>
            && (forall i :: 0 <= i < |o.events| ==> !o.events[i].Send?) && o.client.hrrDone == c.hrrDone
            && o.client.transcript.items == Push(c.transcript, m).items
  {
  }

  /** What a client says when it finishes, and what it pushes. */
  lemma FinishParts(cfg: CM.Config, c: CM.Client, m: Message, secrets: HandshakeSecrets)
    returns (keys: Event, response: seq<Message>, finished: Message)
    requires m.Finished? && CM.OnServerFinished(cfg, c, m, secrets).Next?
    ensures var o := CM.OnServerFinished(cfg, c, m, secrets);
            && keys.KeysReady? && finished.Finished? && !HasRetry(response)
            && o.events == [keys] + CM.EndOfEarlyEvents(cfg, c)
                           + [Send(Handshake, response + [finished]), HandshakeDone]
            && o.client.hrrDone == c.hrrDone
            && o.client.transcript ==
               Push(PushAll(PushAll(Push(c.transcript, m), CM.EndOfEarly(cfg, c)), response), finished)
  {
    hide CM.EndOfEarly, CM.EndOfEarlyEvents;
    var o := CM.OnServerFinished(cfg, c, m, secrets);
    var t := Push(c.transcript, m);
    var r := c.(transcript := t);
    SameEnding(cfg, c, r);
    var u := PushAll(t, CM.EndOfEarly(cfg, c));
    response := CM.ResponseMessages(cfg, u, AlgOf(c.traffic.suite), c.response).value;
    NoRetryAnswered(cfg, u, AlgOf(c.traffic.suite), c.response);
    hide CM.ResponseMessages;
    finished := Finished(FinishedMac(secrets.client, Hash(PushAll(u, response), AlgOf(c.traffic.suite)).value));
    keys := o.events[0];
  }

  lemma SameEnding(cfg: CM.Config, c: CM.Client, d: CM.Client)
    requires c.early == d.early
    ensures CM.EndOfEarly(cfg, c) == CM.EndOfEarly(cfg, d) && CM.EndOfEarlyEvents(cfg, c) == CM.EndOfEarlyEvents(cfg, d)
  {
  }

  lemma NoRetryAnswered(cfg: CM.Config, t: Transcript, alg: Alg, response: Option<CM.Response>)
    ensures var ms := CM.ResponseMessages(cfg, t, alg, response); ms.Some? ==> !HasRetry(ms.value)
  {
  }

  lemma FinishUtters(keys: Event, opening: seq<Event>, ending: seq<Message>, sent: seq<Message>)
    requires keys.KeysReady? && Uttered(opening) == ending
    ensures Uttered([keys] + opening + [Send(Handshake, sent), HandshakeDone]) == ending + sent
  {
    hide Uttered;
    var last := [Send(Handshake, sent), HandshakeDone];
    UtteredAppend([keys] + opening, last);
    UtteredAppend([keys], opening);
    assert last == [Send(Handshake, sent)] + [HandshakeDone];
    UtteredAppend([Send(Handshake, sent)], [HandshakeDone]);
    SilentUtters([keys]);
    SilentUtters([HandshakeDone]);
    OneUttered(Handshake, sent);
    var none: seq<Message> := [];
    assert none + ending == ending && sent + none == sent;
  }

  lemma FinishTalks(cfg: CM.Config, c: CM.Client, m: Message, secrets: HandshakeSecrets)
    requires m.Finished? && CM.OnServerFinished(cfg, c, m, secrets).Next?
    ensures var o := CM.OnServerFinished(cfg, c, m, secrets);
            Grows(c.transcript.items, c.hrrDone, [m] + Uttered(o.events), o.client.transcript.items, o.client.hrrDone)
  {
    hide Uttered, PushAll, CM.OnServerFinished, CM.EndOfEarly, CM.EndOfEarlyEvents;
    var keys, response, finished := FinishParts(cfg, c, m, secrets);
    var ending := CM.EndOfEarly(cfg, c);
    EndingTalks(cfg, c);
    NoRetryEnding(cfg, c);
    FinishUtters(keys, CM.EndOfEarlyEvents(cfg, c), ending, response + [finished]);
    FinishPushes(c.transcript, m, ending, response, finished);
    var said := [m] + (ending + (response + [finished]));
    assert !HasRetry(said);
  }

  lemma NoRetryEnding(cfg: CM.Config, c: CM.Client)
    ensures !HasRetry(CM.EndOfEarly(cfg, c))
  {
  }

  lemma FinishPushes(t: Transcript, m: Message, ending: seq<Message>, response: seq<Message>, finished: Message)
    ensures Push(PushAll(PushAll(Push(t, m), ending), response), finished).items ==
            t.items + Wholes([m] + (ending + (response + [finished])))
  {
    hide Wholes;
    var all := [m] + (ending + (response + [finished]));
    PushedAll(t, all);
    PushAllAppend(t, [m], ending + (response + [finished]));
    PushAllAppend(Push(t, m), ending, response + [finished]);
    PushAllAppend(PushAll(Push(t, m), ending), response, [finished]);
    PushAllOne(t, m);
    PushAllOne(PushAll(PushAll(Push(t, m), ending), response), finished);
  }

  lemma EndingTalks(cfg: CM.Config, c: CM.Client)
    ensures Uttered(CM.EndOfEarlyEvents(cfg, c)) == CM.EndOfEarly(cfg, c)
  {
    if c.early.Accepted? && cfg.mode.Tls? {
      OneUttered(Handshake, [EndOfEarlyData]);
    }
  }

  /** The other handlers push what they read and say nothing. */
  lemma QuietTalks(cfg: CM.Config, c: CM.Client, epoch: Epoch, m: Message, d: CM.Draw)
    requires !c.phase.ExpectServerHello? && !c.phase.ExpectServerFinished? && !c.phase.Done? && !c.phase.Failed?
    requires CM.Dispatch(cfg, c, epoch, m, d).Next?
    ensures var o := CM.Dispatch(cfg, c, epoch, m, d);
            && (forall i :: 0 <= i < |o.events| ==> !o.events[i].Send?) && !IsRetry(m)
            && o.client.transcript == Push(c.transcript, m) && o.client.hrrDone == c.hrrDone
  {
    hide CM.ServerLeaf, CM.KeptLeaf;
  }

  lemma DispatchTalks(cfg: CM.Config, c: CM.Client, epoch: Epoch, m: Message, d: CM.Draw)
    requires !c.phase.Done? && !c.phase.Failed? && CM.Dispatch(cfg, c, epoch, m, d).Next?
    ensures var o := CM.Dispatch(cfg, c, epoch, m, d);
            Grows(c.transcript.items, c.hrrDone, [m] + Uttered(o.events), o.client.transcript.items, o.client.hrrDone)
  {
    hide Uttered, CM.OnServerHello, CM.OnServerFinished, Grows;
    if c.phase.ExpectServerHello? && m.ServerHello? {
      ServerHelloTalks(cfg, c, m, d);
    } else if c.phase.ExpectServerFinished? && m.Finished? {
      FinishTalks(cfg, c, m, c.phase.secrets);
    } else {
      QuietTalks(cfg, c, epoch, m, d);
      SilentUtters(CM.Dispatch(cfg, c, epoch, m, d).events);
      PushGrows(c.transcript, m, c.hrrDone);
    }
  }

  lemma PushGrows(t: Transcript, m: Message, retried: bool)
    requires !IsRetry(m)
    ensures Grows(t.items, retried, [m] + [], Push(t, m).items, retried)
  {
    assert [m] + [] == [m];
    OnePush(t, m);
  }

  lemma ClientStepTalks(cfg: CM.Config, c: CM.Client, input: CM.Input, room: nat, log: seq<Message>)
    requires ClientTalked(c, log) && !c.phase.Done?
    ensures var (next, events) := CM.Step(cfg, c, input, room);
            !next.phase.Failed? ==> ClientTalked(next, log + (ClientHears(input) + Uttered(events)))
  {
    hide CM.Start, CM.Dispatch, Uttered, Grows, TranscriptOf, HasRetry;
    var (next, events) := CM.Step(cfg, c, input, room);
    if !next.phase.Failed? {
      if input.StartNow? && !c.phase.Initial? {
        NothingUttered();
        assert log + ([] + []) == log;
      } else if input.StartNow? {
        StartTalks(cfg, c, input.draw);
        assert [] + Uttered(events) == Uttered(events);
        Grown(c.transcript.items, c.hrrDone, log, Uttered(events), next.transcript.items, next.hrrDone);
      } else {
        DispatchTalks(cfg, c, input.epoch, input.message.value, input.draw);
        Grown(c.transcript.items, c.hrrDone, log, [input.message.value] + Uttered(events), next.transcript.items,
              next.hrrDone);
      }
    }
  }

  lemma NothingUttered()
    ensures Uttered([]) == []
  {
  }

  lemma DoneKeepsTalk(cfg: CM.Config, c: CM.Client, input: CM.Input, room: nat)
    requires c.phase.Done?
    ensures var next := CM.Step(cfg, c, input, room).0; next.phase.Failed? || next == c
  {
  }

  lemma {:induction false} ClientRunTalks(cfg: CM.Config, c: CM.Client, calls: seq<CR.Call>, log: seq<Message>)
    requires ClientTalked(c, log)
    ensures var last := CR.Run(cfg, c, calls).0;
            !last.phase.Failed? ==> ClientTalked(last, log + ClientLog(cfg, c, calls))
    decreases |calls|
  {
    hide CM.Step, Uttered, ClientTalked;
    if calls == [] {
      assert log + [] == log;
    } else {
      var (next, events) := CM.Step(cfg, c, calls[0].input, calls[0].room);
      var said := if c.phase.Done? then [] else ClientHears(calls[0].input) + Uttered(events);
      if next.phase.Failed? {
        CR.FailedIsSilent(cfg, next, calls[1..]);
      } else {
        if c.phase.Done? {
          DoneKeepsTalk(cfg, c, calls[0].input, calls[0].room);
          assert log + said == log;
        } else {
          ClientStepTalks(cfg, c, calls[0].input, calls[0].room, log);
        }
        ClientRunTalks(cfg, next, calls[1..], log + said);
        assert (log + said) + ClientLog(cfg, next, calls[1..]) == log + (said + ClientLog(cfg, next, calls[1..]));
      }
    }
  }

  /** Over every run, a client that has not failed holds the transcript of exactly what it heard and said. */
  lemma ClientTranscriptIsTheConversation(cfg: CM.Config, ticket: Option<CM.Ticket>, calls: seq<CR.Call>)
    requires !CR.Run(cfg, CM.Fresh(ticket), calls).0.phase.Failed?
    ensures CR.Run(cfg, CM.Fresh(ticket), calls).0.transcript.items ==
            TranscriptOf(ClientLog(cfg, CM.Fresh(ticket), calls))
  {
    hide CR.Run, ClientLog;
    NoRetry([]);
    ClientRunTalks(cfg, CM.Fresh(ticket), calls, []);
    assert [] + ClientLog(cfg, CM.Fresh(ticket), calls) == ClientLog(cfg, CM.Fresh(ticket), calls);
  }

  // ----------------------------------------------------------------- server, one call

  lemma AskTalks(cfg: SM.Config, s: SM.Server, h: Hello, suite: nat, group: Group)
    requires SM.AskRetry(cfg, s, h, suite, group).Next?
    ensures var o := SM.AskRetry(cfg, s, h, suite, group);
            && |o.events| == 1 && o.events[0].Send? && o.events[0].epoch.Plaintext? && |o.events[0].messages| == 1
            && var m := o.events[0].messages[0];
               && IsRetry(m) && o.server.hrrDone
               && o.server.transcript.items ==
                  [Restart(Digest(AlgOf(m.suite), s.transcript.items + [Whole(ClientHello(h))])), Whole(m)]
  {
  }

  /** The server hears a hello and asks again. */
  ghost predicate AskedAgain(s: SM.Server, h: Hello, o: SM.Outcome)
  {
    && o.Next? && |o.events| == 1 && o.events[0].Send? && o.events[0].epoch.Plaintext? && |o.events[0].messages| == 1
    && var m := o.events[0].messages[0];
       && IsRetry(m) && !s.hrrDone && o.server.hrrDone
       && o.server.transcript.items ==
          [Restart(Digest(AlgOf(m.suite), s.transcript.items + [Whole(ClientHello(h))])), Whole(m)]
  }

  /** The server hears a hello and answers it, whatever else it announces. */
  ghost predicate AnsweredNow(s: SM.Server, h: Hello, o: SM.Outcome)
  {
    && o.Next? && !HasRetry(Uttered(o.events)) && o.server.hrrDone == s.hrrDone
    && o.server.transcript.items == s.transcript.items + Wholes([ClientHello(h)] + Uttered(o.events))
  }

  lemma ReadyTalks(cfg: SM.Config, s: SM.Server, suite: nat, resumed: bool, secrets: HandshakeSecrets,
                   events: seq<Event>)
    requires SM.Ready(cfg, s, suite, resumed, secrets, events).Next?
    ensures var o := SM.Ready(cfg, s, suite, resumed, secrets, events);
            && Uttered(o.events) == Uttered(events)
            && o.server.transcript == s.transcript && o.server.hrrDone == s.hrrDone
  {
    hide Uttered, SM.NextPhase;
    var o := SM.Ready(cfg, s, suite, resumed, secrets, events);
    var last := [o.events[|o.events| - 1]];
    assert o.events == events + last;
    UtteredAppend(events, last);
    SilentUtters(last);
    assert Uttered(events) + [] == Uttered(events);
  }

  lemma CredentialsTalk(cfg: SM.Config, t: Transcript, alg: Alg, resumed: bool)
    ensures var ms := SM.Credentials(cfg, t, alg, resumed); ms.Some? ==> !HasRetry(ms.value)
  {
  }

  lemma FlightTalks(cfg: SM.Config, s: SM.Server, h: Hello, suite: nat, resumed: bool, secrets: HandshakeSecrets,
                    events: seq<Event>)
    requires SM.Flight(cfg, s, h, suite, resumed, secrets, events).Next? && !HasRetry(Uttered(events))
    ensures var o := SM.Flight(cfg, s, h, suite, resumed, secrets, events);
            && o.server.hrrDone == s.hrrDone && !HasRetry(Uttered(o.events)) && Uttered(events) <= Uttered(o.events)
            && o.server.transcript.items == s.transcript.items + Wholes(Uttered(o.events)[|Uttered(events)|..])
  {
    hide Uttered, SM.Ready, SM.Credentials, PushAll;
    var alg := AlgOf(suite);
    var ee := EncryptedExtensions(cfg.extensions(h, s.alpn, s.early.remaining.Some?));
    var t := Push(s.transcript, ee);
    var messages := SM.Credentials(cfg, t, alg, resumed).value;
    CredentialsTalk(cfg, t, alg, resumed);
    var u := PushAll(t, messages);
    var finished := Finished(FinishedMac(secrets.server, Hash(u, alg).value));
    var sent := [ee] + messages + [finished];
    var sending := [Send(Handshake, sent)];
    ReadyTalks(cfg, s.(transcript := Push(u, finished)), suite, resumed, secrets, events + sending);
    UtteredAppend(events, sending);
    OneUttered(Handshake, sent);
    assert (Uttered(events) + sent)[|Uttered(events)|..] == sent;
    assert sent == [ee] + (messages + [finished]);
    PushAllAppend(s.transcript, [ee], messages + [finished]);
    PushAllAppend(t, messages, [finished]);
    PushAllOne(s.transcript, ee);
    PushAllOne(u, finished);
    PushedAll(s.transcript, sent);
  }

  lemma ReplyTalks(cfg: SM.Config, s: SM.Server, h: Hello, suite: nat, theirs: Share, ours: Share,
                   psk: Option<SM.Accepted>, d: SM.Draw, events: seq<Event>)
    requires SM.Reply(cfg, s, h, suite, theirs, ours, psk, d, events).Next? && Uttered(events) == []
    ensures var o := SM.Reply(cfg, s, h, suite, theirs, ours, psk, d, events);
            && o.server.hrrDone == s.hrrDone && !HasRetry(Uttered(o.events))
            && o.server.transcript.items == s.transcript.items + Wholes(Uttered(o.events))
  {
    hide Uttered, SM.Flight;
    var m := SM.HelloMessage(h, suite, ours, d.random, psk.Some?);
    var t := Push(s.transcript, m);
    var early := Early(AlgOf(suite), match psk case None => None case Some(a) => Some(a.data.psk));
    var secrets := SecretsFor(Mixed(early, Shared(ours.group, theirs.key, ours.key)), Hash(t, AlgOf(suite)).value);
    var (hello, keys) := ([Send(Plaintext, [m])], [KeysReady(Handshake, secrets.client, secrets.server)]);
    var all := events + [Send(Plaintext, [m]), KeysReady(Handshake, secrets.client, secrets.server)];
    assert all == events + (hello + keys);
    UtteredAppend(events, hello + keys);
    UtteredAppend(hello, keys);
    OneUttered(Plaintext, [m]);
    SilentUtters(keys);
    var none: seq<Message> := [];
    assert none + ([m] + none) == [m];
    FlightTalks(cfg, s.(transcript := t), h, suite, psk.Some?, secrets, all);
    var o := SM.Reply(cfg, s, h, suite, theirs, ours, psk, d, events);
    var said := Uttered(o.events);
    assert said == [m] + said[1..];
    WholesAppend([m], said[1..]);
    OnePush(s.transcript, m);
    Reassociate(s.transcript.items, Wholes([m]), Wholes(said[1..]));
  }

  lemma AcceptTalks(cfg: SM.Config, s: SM.Server, h: Hello, suite: nat, share: Share, d: SM.Draw)
    requires SM.Accept(cfg, s, h, suite, share, d).Next?
    ensures AnsweredNow(s, h, SM.Accept(cfg, s, h, suite, share, d))
  {
    hide Uttered, SM.Reply, SM.TryPsk, SM.Grant;
    var alpn := cfg.alpn(h).value;
    var psk := SM.AcceptedOf(SM.TryPsk(cfg, s, h, AlgOf(suite), alpn, d.now));
    var window := SM.Admit(cfg, h.early, psk, suite, d);
    var t := Push(s.transcript, ClientHello(h));
    var events := SM.QuicEvents(cfg.quic(h)) + SM.EarlyEvents(psk, window.remaining.Some?, t);
    SilentUtters(events);
    ReplyTalks(cfg, s.(transcript := t, alpn := alpn, early := window), h, suite, share,
               Share(share.group, d.key.value), psk, d, events);
    var said := Uttered(SM.Accept(cfg, s, h, suite, share, d).events);
    WholesAppend([ClientHello(h)], said);
    OnePush(s.transcript, ClientHello(h));
    Reassociate(s.transcript.items, Wholes([ClientHello(h)]), Wholes(said));
  }

  lemma HelloTalks(cfg: SM.Config, s: SM.Server, h: Hello, d: SM.Draw)
    requires SM.OnClientHello(cfg, s, h, d).Next?
    ensures AskedAgain(s, h, SM.OnClientHello(cfg, s, h, d)) || AnsweredNow(s, h, SM.OnClientHello(cfg, s, h, d))
  {
    hide SM.AskRetry, SM.Accept, SM.KeepsPin, Uttered;
    var (kx, suite) := (cfg.parse(h).value, SM.PickSuite(h.suites).value);
    var r := s.(transcript := Select(s.transcript, AlgOf(suite)).value, traffic := SelectSuite(s.traffic, suite).value);
    assert r.transcript.items == s.transcript.items;
    match kx.selected
    case None => AskTalks(cfg, r, h, suite, kx.retryGroup);
    case Some(share) => AcceptTalks(cfg, r, h, suite, share, d);
  }

  /** What the other messages add: themselves. */
  lemma ServerQuietTalks(cfg: SM.Config, s: SM.Server, epoch: Epoch, m: Message, d: SM.Draw)
    requires !s.phase.ExpectClientHello? && !s.phase.Done? && !s.phase.Failed?
    requires SM.Dispatch(cfg, s, epoch, m, d).Next?
    ensures var o := SM.Dispatch(cfg, s, epoch, m, d);
            && (forall i :: 0 <= i < |o.events| ==> !o.events[i].Send? || o.events[i].epoch.Application?) && !IsRetry(m)
            && o.server.transcript == Push(s.transcript, m) && o.server.hrrDone == s.hrrDone
  {
    hide SM.StoredIdentity;
  }

  lemma ServerStepTalks(cfg: SM.Config, s: SM.Server, input: SM.Input, room: nat, log: seq<Message>)
    requires ServerTalked(s, log) && !s.phase.Done?
    ensures var (next, events) := SM.Step(cfg, s, input, room);
            !next.phase.Failed? ==> ServerTalked(next, log + (ServerHears(input) + Uttered(events)))
  {
    hide SM.Dispatch, Uttered, TranscriptOf, HasRetry, SM.Charge;
    var (next, events) := SM.Step(cfg, s, input, room);
    if !next.phase.Failed? {
      if input.NoteEarlyData? {
        NothingUttered();
        assert log + ([] + []) == log;
      } else if s.phase.ExpectClientHello? {
        AwaitedHello(cfg, s, input.epoch, input.message.value, input.draw);
        HelloStepTalks(cfg, s, input.message.value.hello, input.draw, log);
      } else {
        ServerQuietTalks(cfg, s, input.epoch, input.message.value, input.draw);
        SilentUtters(events);
        PushGrows(s.transcript, input.message.value, s.hrrDone);
        Grown(s.transcript.items, s.hrrDone, log, [input.message.value] + [], next.transcript.items, next.hrrDone);
      }
    }
  }

  lemma AwaitedHello(cfg: SM.Config, s: SM.Server, epoch: Epoch, m: Message, d: SM.Draw)
    requires s.phase.ExpectClientHello? && SM.Dispatch(cfg, s, epoch, m, d).Next?
    ensures m.ClientHello? && SM.Dispatch(cfg, s, epoch, m, d) == SM.OnClientHello(cfg, s, m.hello, d)
  {
    hide SM.OnClientHello;
  }

  lemma HelloStepTalks(cfg: SM.Config, s: SM.Server, h: Hello, d: SM.Draw, log: seq<Message>)
    requires ServerTalked(s, log) && SM.OnClientHello(cfg, s, h, d).Next?
    ensures var o := SM.OnClientHello(cfg, s, h, d);
            ServerTalked(o.server, log + ([ClientHello(h)] + Uttered(o.events)))
  {
    hide SM.OnClientHello, TranscriptOf;
    var o := SM.OnClientHello(cfg, s, h, d);
    HelloTalks(cfg, s, h, d);
    var hello := [ClientHello(h)];
    if AskedAgain(s, h, o) {
      hide Uttered;
      var m := o.events[0].messages[0];
      assert o.events[0].messages == [m];
      assert o.events == [Send(Plaintext, [m])];
      OneUttered(Plaintext, [m]);
      AppendPlain(log, hello);
      OnePush(s.transcript, ClientHello(h));
      AppendRetry(log + hello, m, []);
      assert [m] + [] == [m] && log + (hello + [m]) == (log + hello) + [m];
      assert Wholes([m]) == [Whole(m)];
    } else {
      var said := hello + Uttered(o.events);
      hide Uttered;
      assert !HasRetry(said);
      AppendPlain(log, said);
    }
  }

  lemma ServerDoneKeepsTalk(cfg: SM.Config, s: SM.Server, input: SM.Input, room: nat)
    requires s.phase.Done?
    ensures var next := SM.Step(cfg, s, input, room).0;
            next.phase.Failed? || (next.transcript == s.transcript && next.hrrDone == s.hrrDone)
  {
    hide SM.Charge;
  }

  lemma {:induction false} ServerRunTalks(cfg: SM.Config, s: SM.Server, calls: seq<SR.Call>, log: seq<Message>)
    requires ServerTalked(s, log)
    ensures var last := SR.Run(cfg, s, calls).0;
            !last.phase.Failed? ==> ServerTalked(last, log + ServerLog(cfg, s, calls))
    decreases |calls|
  {
    hide SM.Step, Uttered, TranscriptOf, HasRetry;
    if calls == [] {
      assert log + [] == log;
    } else {
      var (next, events) := SM.Step(cfg, s, calls[0].input, calls[0].room);
      var said := if s.phase.Done? then [] else ServerHears(calls[0].input) + Uttered(events);
      if next.phase.Failed? {
        SR.FailedIsSilent(cfg, next, calls[1..]);
      } else {
        if s.phase.Done? {
          ServerDoneKeepsTalk(cfg, s, calls[0].input, calls[0].room);
          assert log + said == log;
        } else {
          ServerStepTalks(cfg, s, calls[0].input, calls[0].room, log);
        }
        ServerRunTalks(cfg, next, calls[1..], log + said);
        assert (log + said) + ServerLog(cfg, next, calls[1..]) == log + (said + ServerLog(cfg, next, calls[1..]));
      }
    }
  }

  /** Over every run, a server that has not failed holds the transcript of exactly what it heard and said. */
  lemma ServerTranscriptIsTheConversation(cfg: SM.Config, calls: seq<SR.Call>)
    requires !SR.Run(cfg, SM.Fresh(), calls).0.phase.Failed?
    ensures SR.Run(cfg, SM.Fresh(), calls).0.transcript.items == TranscriptOf(ServerLog(cfg, SM.Fresh(), calls))
  {
    hide SR.Run, ServerLog;
    NoRetry([]);
    ServerRunTalks(cfg, SM.Fresh(), calls, []);
    assert [] + ServerLog(cfg, SM.Fresh(), calls) == ServerLog(cfg, SM.Fresh(), calls);
  }

  // ---------------------------------------------------------------- one conversation

  lemma WholesInjective(a: seq<Message>, b: seq<Message>)
    requires Wholes(a) == Wholes(b)
    ensures a == b
  {
    forall i | 0 <= i < |a| ensures a[i] == b[i] {
      assert Wholes(a)[i] == Wholes(b)[i];
    }
  }

  /** A transcript tells its conversation. */
  lemma TranscriptInjective(a: seq<Message>, b: seq<Message>)
    requires TranscriptOf(a) == TranscriptOf(b) && a != [] && b != []
    ensures a == b
  {
    var (m, n) := (BeforeRetry(a), BeforeRetry(b));
    hide BeforeRetry;
    assert TranscriptOf(a)[0] == TranscriptOf(b)[0];
    if m == |a| && n == |b| {
      WholesInjective(a, b);
    } else {
      assert m < |a| && n < |b|;
      var (x, y) := (Wholes(a[m..]), Wholes(b[n..]));
      WholesInjective(a[..m], b[..n]);
      assert TranscriptOf(a)[1..] == x && TranscriptOf(b)[1..] == y;
      WholesInjective(a[m..], b[n..]);
      assert a == a[..m] + a[m..] && b == b[..n] + b[n..];
    }
  }

  /** When both sides are done they have had one conversation: each heard and said the same handshake messages,
      in the same order, from the first hello to the client's Finished. */
  lemma SameConversation(ccfg: CM.Config, scfg: SM.Config, ticket: Option<CM.Ticket>, moves: seq<Move>)
    requires var y := Play(ccfg, scfg, Start(ticket), moves); y.client.phase.Done? && y.server.phase.Done?
    ensures ClientLog(ccfg, CM.Fresh(ticket), ClientCalls(ccfg, scfg, Start(ticket), moves)) ==
            ServerLog(scfg, SM.Fresh(), ServerCalls(ccfg, scfg, Start(ticket), moves))
  {
    hide Play, CR.Run, SR.Run, ClientLog, ServerLog, ClientCalls, ServerCalls, TranscriptOf, ClientEvents, ServerEvents,
         Mirrored, EarlySecrets;
    var (cs, ss) := (ClientCalls(ccfg, scfg, Start(ticket), moves), ServerCalls(ccfg, scfg, Start(ticket), moves));
    PlayIsRuns(ccfg, scfg, Start(ticket), moves);
    TwoPartyAgreement(ccfg, scfg, ticket, moves);
    ClientTranscriptIsTheConversation(ccfg, ticket, cs);
    ServerTranscriptIsTheConversation(scfg, ss);
    DoneHeardSomething(ccfg, scfg, ticket, moves);
    NothingTold();
    TranscriptInjective(ClientLog(ccfg, CM.Fresh(ticket), cs), ServerLog(scfg, SM.Fresh(), ss));
  }

  lemma NothingTold()
    ensures TranscriptOf([]) == []
  {
  }

  lemma DoneHeardSomething(ccfg: CM.Config, scfg: SM.Config, ticket: Option<CM.Ticket>, moves: seq<Move>)
    requires Play(ccfg, scfg, Start(ticket), moves).client.phase.Done?
    ensures Play(ccfg, scfg, Start(ticket), moves).client.transcript.items != []
  {
    hide CR.Run, ClientCalls;
    PlayIsRuns(ccfg, scfg, Start(ticket), moves);
    CR.FreshHolds(ccfg, ticket);
    CR.RunKeeps(ccfg, CM.Fresh(ticket), ClientCalls(ccfg, scfg, Start(ticket), moves));
  }
}
