// The bring-up of the link: from the first tick to the answer to the last of the
// ten set-up commands.

module Bringup {
  import opened Bytes
  import opened Image
  import opened Update
  import opened CloudOta
  import opened HttpStream
  import opened Controller
  import opened Download
  import opened Modem

  // ---- What may happen between two bytes ----

  /** A tick before the timeout, a poll of the engine, or a request of the
      application. */
  predicate Idles(s: System, i: Input) { Waits(s, i) || i.PollEngine? || i.RequestOta? }

  /** The inputs are these bytes, at any times, with idling in between. */
  ghost predicate Attends(s: System, inputs: seq<Input>, bytes: seq<u8>)
    decreases |inputs|
  {
    if inputs == [] then bytes == []
    else if Idles(s, inputs[0]) then Attends(React(s, inputs[0]), inputs[1..], bytes)
    else
      && bytes != [] && inputs[0].ReceiveByte? && inputs[0].byte == bytes[0] && inputs[0].env.fits
      && Attends(React(s, inputs[0]), inputs[1..], bytes[1..])
  }

  /** The same but for a request handed over in between. */
  predicate Alike(k: Control, k': Control) {
    k' == k.(requested := k'.requested, version := k'.version) && (k.requested ==> k'.requested)
  }

  lemma IdlingIsAlike(s: System, i: Input)
    requires Idles(s, i)
    ensures Alike(s.k, React(s, i).k)
  {
    hide *;
    if Waits(s, i) {
      WaitingIsNothing(s, i);
      SameAlike(s.k);
    } else {
      IdleKind(s, i);
      if i.PollEngine? { PolledAlike(s, i); } else { AskedAlike(s, i); }
    }
  }

  lemma IdleKind(s: System, i: Input)
    requires Idles(s, i) && !Waits(s, i)
    ensures i.PollEngine? || i.RequestOta?
  {
    hide Waits;
  }

  lemma SameAlike(k: Control)
    ensures Alike(k, k)
  {
  }

  lemma PolledAlike(s: System, i: Input)
    requires i.PollEngine?
    ensures Alike(s.k, React(s, i).k)
  {
    hide Poll;
  }

  lemma AskedAlike(s: System, i: Input)
    requires i.RequestOta?
    ensures Alike(s.k, React(s, i).k)
  {
    hide ActiveVersion;
  }

  lemma {:induction false} NothingAttended(s: System, inputs: seq<Input>)
    requires Attends(s, inputs, [])
    ensures Alike(s.k, Run(s, inputs).k)
    decreases |inputs|
  {
    hide React, Idles;
    if inputs != [] {
      IdlingIsAlike(s, inputs[0]);
      NothingAttended(React(s, inputs[0]), inputs[1..]);
    }
  }

  lemma {:induction false} Apart(s: System, inputs: seq<Input>, a: seq<u8>, b: seq<u8>) returns (n: nat)
    requires Attends(s, inputs, a + b)
    ensures n <= |inputs| && Attends(s, inputs[..n], a) && Attends(Run(s, inputs[..n]), inputs[n..], b)
    ensures Run(s, inputs) == Run(Run(s, inputs[..n]), inputs[n..])
    decreases |inputs|
  {
    hide React, Idles;
    if a == [] {
      n := 0;
      assert a + b == b && inputs[..0] == [] && inputs[0..] == inputs;
    } else {
      var s1 := React(s, inputs[0]);
      if Idles(s, inputs[0]) {
        n := Apart(s1, inputs[1..], a, b);
      } else {
        assert (a + b)[1..] == a[1..] + b;
        n := Apart(s1, inputs[1..], a[1..], b);
      }
      n := n + 1;
      assert inputs[..n][0] == inputs[0] && inputs[..n][1..] == inputs[1..][..n - 1];
      assert inputs[n..] == inputs[1..][n - 1..];
    }
  }

  /** One byte, and the controller it finds. */
  lemma {:induction false} Attended(s: System, inputs: seq<Input>, b: u8) returns (s1: System, now: u32, env: Env)
    requires Attends(s, inputs, [b])
    ensures Alike(s.k, s1.k) && env.fits && Alike(Receive(s1, b, now, env).k, Run(s, inputs).k)
    decreases |inputs|
  {
    hide Receive, Idles, TickAt;
    if Idles(s, inputs[0]) {
      IdlingIsAlike(s, inputs[0]);
      s1, now, env := Attended(React(s, inputs[0]), inputs[1..], b);
    } else {
      s1, now, env := s, inputs[0].now, inputs[0].env;
      assert [b][1..] == [];
      NothingAttended(React(s, inputs[0]), inputs[1..]);
    }
  }

  /** There are such inputs for every list of bytes. */
  lemma {:induction false} SpokenIsAttended(s: System, bytes: seq<u8>, v: Version)
    ensures Attends(s, Spoken(bytes, v), bytes)
    decreases |bytes|
  {
    hide React;
    if bytes != [] {
      assert Spoken(bytes, v)[1..] == Spoken(bytes[1..], v);
      SpokenIsAttended(React(s, Spoken(bytes, v)[0]), bytes[1..], v);
    }
  }

  // ---- Answers ----

  /** The ten steps. */
  function Step(i: nat): Controller.State
    requires i < 10
  {
    if i == 0 then Sync
    else if i == 1 then EchoOff
    else if i == 2 then SysLog
    else if i == 3 then WifiMode
    else if i == 4 then WifiJoin
    else if i == 5 then MqttClean
    else if i == 6 then MqttConfig
    else if i == 7 then MqttConnect
    else if i == 8 then MqttSubscribe
    else MqttAnnounce
  }

  /** The commands of the first n steps. */
  function Commands(n: nat): seq<Command>
    requires n <= 10
  {
    seq(n, j requires 0 <= j < n => Setup(Step(j)))
  }

  /** OK, or ERROR where it is tolerated. */
  function Reply(i: nat, refused: bool): seq<u8> {
    (if i == 5 && refused then Ascii("ERROR") else Ascii("OK")) + [0x0D, 0x0A]
  }

  function Replies(from: nat, refused: bool): seq<u8>
    decreases 10 - from
  {
    if from >= 10 then [] else Reply(from, refused) + Replies(from + 1, refused)
  }

  /** Step i has sent its command, and `text` of its answer is in the line. */
  predicate Standing(k: Control, i: nat, text: seq<u8>, before: seq<Command>, retries: nat)
    requires i < 10
  {
    && k.state == Step(i) && k.commandSent && !k.httpBinary && k.line == text && k.retries == retries
    && k.sent == before + Commands(i + 1)
  }

  lemma StandingAlike(k: Control, k': Control, i: nat, text: seq<u8>, before: seq<Command>, retries: nat)
    requires i < 10 && Standing(k, i, text, before, retries) && Alike(k, k')
    ensures Standing(k', i, text, before, retries)
  {
    hide Commands;
  }

  /** The end of the bring-up: online, with the count of failures cleared, or
      back in the download that has been asked for. */
  predicate Arrived(k: Control, resumed: bool, before: seq<Command>, retries: nat) {
    && !k.httpBinary && k.line == []
    && (resumed ==> k.requested)
    && k.state == (if resumed then OtaClearHeader else Online)
    && k.commandSent == resumed
    && k.retries == (if resumed then retries else 0)
    && k.sent == before + Commands(10) + (if resumed then [ClearHeader] else [])
  }

  lemma {:induction false} TextAttended(s: System, inputs: seq<Input>, i: nat, line: seq<u8>, text: seq<u8>,
                                        before: seq<Command>, retries: nat)
    requires i < 10 && Standing(s.k, i, line, before, retries)
    requires Attends(s, inputs, text) && Plain(text) && |line| + |text| + 1 < LINE_SIZE
    ensures Standing(Run(s, inputs).k, i, line + text, before, retries)
    ensures s.k.requested ==> Run(s, inputs).k.requested
    decreases |text|
  {
    hide Attends, Run, BodyPrefix, FeedStream, EnterRetry, ProcessLine, PromptByte, BinaryByte, Standing, Receive;
    if text == [] {
      NothingAttended(s, inputs);
      StandingAlike(s.k, Run(s, inputs).k, i, line, before, retries);
      assert line + text == line;
    } else {
      assert text == [text[0]] + text[1..];
      var n := Apart(s, inputs, [text[0]], text[1..]);
      var s1, now, env := Attended(s, inputs[..n], text[0]);
      StandingAlike(s.k, s1.k, i, line, before, retries);
      TextTaken(s1, text[0], now, env, i, line, before, retries);
      var s2 := Run(s, inputs[..n]);
      StandingAlike(Receive(s1, text[0], now, env).k, s2.k, i, line + [text[0]], before, retries);
      TextAttended(s2, inputs[n..], i, line + [text[0]], text[1..], before, retries);
      assert line + text == line + [text[0]] + text[1..];
    }
  }

  lemma TextTaken(s: System, b: u8, now: u32, env: Env, i: nat, line: seq<u8>, before: seq<Command>, retries: nat)
    requires i < 10 && Standing(s.k, i, line, before, retries) && |line| + 2 < LINE_SIZE + 1
    requires b != 0x0D && b != 0x0A
    ensures var s1 := Receive(s, b, now, env);
      Standing(s1.k, i, line + [b], before, retries) && s1.k.requested == s.k.requested
  {
    hide BodyPrefix, FeedStream, EnterRetry, ProcessLine, PromptByte, BinaryByte, Commands;
  }

  /** The end of the answer sends the command of the next step. */
  lemma StepTaken(s: System, now: u32, env: Env, i: nat, text: seq<u8>, before: seq<Command>, retries: nat)
    requires i < 10 && Standing(s.k, i, text, before, retries) && env.fits
    requires text == Ascii("OK") || (text == Ascii("ERROR") && i == 5)
    ensures var k := Receive(s, 0x0A, now, env).k;
      && k.requested == s.k.requested
      && (i < 9 ==> Standing(k, i + 1, [], before, retries))
      && (i == 9 ==> Arrived(k, s.k.requested, before, retries))
  {
    hide BodyPrefix, EnterRetry, PromptByte, BinaryByte, LineByte, ProcessLine, AdvanceState, CString, Commands;
    hide Contains, OkText, ErrorText;
    Texts();
    PlainIsCString(text);
    var s1 := AdvanceState(s, now, env);
    Dispatched(s, now, env, text);
    Advanced(s, now, env, i, before, retries);
  }

  lemma Texts()
    ensures OkText() == Ascii("OK") && ErrorText() == Ascii("ERROR") && OkText() != [] && ErrorText() != []
    ensures Plain(OkText()) && Plain(ErrorText())
  {
  }

  lemma Dispatched(s: System, now: u32, env: Env, text: seq<u8>)
    requires s.k.commandSent && HasCommand(s.k.state)
    requires text == OkText() || (text == ErrorText() && s.k.state == MqttClean)
    ensures ProcessLine(s, text, now, env) == AdvanceState(s, now, env)
  {
    hide AdvanceState, Contains, Ascii;
    assert |OkText()| == 2 && |ErrCodeText()| == 9 && |RequestText()| == 13 && |ErrorText()| == 5;
  }

  lemma Advanced(s: System, now: u32, env: Env, i: nat, before: seq<Command>, retries: nat)
    requires i < 10 && Standing(s.k, i, s.k.line, before, retries) && env.fits
    ensures var k := AdvanceState(s, now, env).k.(line := []);
      && k.requested == s.k.requested
      && (i < 9 ==> Standing(k, i + 1, [], before, retries))
      && (i == 9 ==> Arrived(k, s.k.requested, before, retries))
  {
    hide *;
    if i < 9 {
      var k := s.k.(state := Step(i + 1), commandSent := false, started := now);
      NextStep(s, now, env, i, before, retries);
      Command(s.(k := k), now, env, i + 1);
      Sending(k, now, i + 1, before, retries);
    } else {
      LastStep(s, now, env, before, retries);
    }
  }

  lemma NextStep(s: System, now: u32, env: Env, i: nat, before: seq<Command>, retries: nat)
    requires i < 9 && Standing(s.k, i, s.k.line, before, retries)
    ensures var k := s.k.(state := Step(i + 1), commandSent := false, started := now);
      && AdvanceState(s, now, env) == TickAt(s.(k := k), now, env)
      && k.state == Step(i + 1) && !k.commandSent && !k.httpBinary && k.retries == retries
      && k.sent == before + Commands(i + 1)
  {
    hide TickAt, Commands;
  }

  lemma Command(s: System, now: u32, env: Env, i: nat)
    requires i < 10 && s.k.state == Step(i) && !s.k.commandSent && env.fits
    ensures TickAt(s, now, env) == s.(k := Sent(s.k, Setup(Step(i))).(commandSent := true, started := now))
  {
    hide EnterRetry, Timeout, Abort;
  }

  lemma Sending(k: Control, now: u32, i: nat, before: seq<Command>, retries: nat)
    requires i < 10 && k.state == Step(i) && !k.httpBinary && k.retries == retries && k.sent == before + Commands(i)
    ensures Standing(Sent(k, Setup(Step(i))).(commandSent := true, started := now, line := []), i, [], before, retries)
    ensures Sent(k, Setup(Step(i))).requested == k.requested
  {
    assert Commands(i + 1) == Commands(i) + [Setup(Step(i))];
  }

  lemma LastStep(s: System, now: u32, env: Env, before: seq<Command>, retries: nat)
    requires Standing(s.k, 9, s.k.line, before, retries)
    ensures var k := AdvanceState(s, now, env).k.(line := []);
      k.requested == s.k.requested && Arrived(k, s.k.requested, before, retries)
  {
    hide TickAt, Commands;
  }

  /** One answer. */
  lemma Rung(s: System, inputs: seq<Input>, i: nat, refused: bool, before: seq<Command>, retries: nat)
    returns (resumed: bool)
    requires i < 10 && Standing(s.k, i, [], before, retries) && Attends(s, inputs, Reply(i, refused))
    ensures var k := Run(s, inputs).k;
      && (s.k.requested ==> k.requested)
      && (i < 9 ==> Standing(k, i + 1, [], before, retries))
      && (i == 9 ==> Arrived(k, resumed, before, retries) && (s.k.requested ==> resumed))
  {
    hide Attends, Run, Receive, Standing, Plain, Arrived, OkText, ErrorText;
    Texts();
    var text := if i == 5 && refused then ErrorText() else OkText();
    TextLength();
    var n := Apart(s, inputs, text, [0x0D, 0x0A]);
    TextAttended(s, inputs[..n], i, [], text, before, retries);
    assert [] + text == text;
    var s1, in1 := Run(s, inputs[..n]), inputs[n..];
    assert [0x0D, 0x0A] == [0x0D] + [0x0A];
    var m := Apart(s1, in1, [0x0D], [0x0A]);
    var s2, now, env := Attended(s1, in1[..m], 0x0D);
    StandingAlike(s1.k, s2.k, i, text, before, retries);
    ReturnIgnored(s2, now, env, i, text, before, retries);
    var s3 := Run(s1, in1[..m]);
    StandingAlike(s2.k, s3.k, i, text, before, retries);
    var s4;
    s4, now, env := Attended(s3, in1[m..], 0x0A);
    StandingAlike(s3.k, s4.k, i, text, before, retries);
    StepTaken(s4, now, env, i, text, before, retries);
    resumed := s4.k.requested;
    var k := Receive(s4, 0x0A, now, env).k;
    if i < 9 {
      StandingAlike(k, Run(s3, in1[m..]).k, i + 1, [], before, retries);
    } else {
      ArrivedAlike(k, Run(s3, in1[m..]).k, resumed, before, retries);
    }
  }

  lemma TextLength()
    ensures |OkText()| <= 5 && |ErrorText()| <= 5 && LINE_SIZE > 10
  {
  }

  lemma ReturnIgnored(s: System, now: u32, env: Env, i: nat, text: seq<u8>, before: seq<Command>, retries: nat)
    requires i < 10 && Standing(s.k, i, text, before, retries)
    ensures Receive(s, 0x0D, now, env) == s
  {
    hide PromptByte, BinaryByte, LineByte, ProcessLine, Commands;
  }

  lemma ArrivedAlike(k: Control, k': Control, resumed: bool, before: seq<Command>, retries: nat)
    requires Arrived(k, resumed, before, retries) && Alike(k, k')
    ensures Arrived(k', resumed, before, retries)
  {
    hide Commands;
  }

  lemma {:induction false} Climb(s: System, inputs: seq<Input>, i: nat, refused: bool, before: seq<Command>,
                                 retries: nat)
    returns (resumed: bool)
    requires i < 10 && Standing(s.k, i, [], before, retries) && Attends(s, inputs, Replies(i, refused))
    ensures Arrived(Run(s, inputs).k, resumed, before, retries) && (s.k.requested ==> resumed)
    decreases 10 - i
  {
    hide Attends, Run, Standing, Arrived, Reply;
    var n := Apart(s, inputs, Reply(i, refused), Replies(i + 1, refused));
    resumed := Rung(s, inputs[..n], i, refused, before, retries);
    var s1 := Run(s, inputs[..n]);
    if i < 9 {
      resumed := Climb(s1, inputs[n..], i + 1, refused, before, retries);
    } else {
      NothingAttended(s1, inputs[n..]);
      ArrivedAlike(s1.k, Run(s1, inputs[n..]).k, resumed, before, retries);
    }
  }

  // ---- The bring-up ----

  /** The next tick begins with the first command: after a reset, or two seconds
      after one of the first two failures. */
  predicate Wakes(k: Control, now: u32) {
    && !k.httpBinary && k.line == []
    && ((k.state == Sync && !k.commandSent) || (k.state == Retry && k.retries < 3 && Sub32(now, k.started) >= 2000))
  }

  lemma FirstCommand(s: System, now: u32, env: Env)
    requires Wakes(s.k, now)
    ensures var s1 := TickAt(s, now, env);
      Standing(s1.k, 0, [], s.k.sent, s.k.retries) && s1.k.requested == s.k.requested
  {
    hide Timeout, EnterRetry;
    assert Commands(1) == [Setup(Sync)];
  }

  /** The bring-up, for every modem that answers each command with OK, or the
      clearing of its MQTT state with ERROR, at any times short of a timeout: the
      ten set-up commands are sent in this order, and then the controller is
      online with no failures counted; or, if an update has been asked for before
      the last answer, it asks the modem to clear its header and the download
      goes on. */
  lemma BringUp(s: System, now: u32, env: Env, inputs: seq<Input>, refused: bool) returns (resumed: bool)
    requires Wakes(s.k, now) && Attends(TickAt(s, now, env), inputs, Replies(0, refused))
    ensures var k := Run(TickAt(s, now, env), inputs).k;
      && (s.k.requested ==> resumed) && (resumed ==> k.requested)
      && k.state == (if resumed then OtaClearHeader else Online)
      && k.retries == (if resumed then s.k.retries else 0)
      && k.sent == s.k.sent
                   + [Setup(Sync), Setup(EchoOff), Setup(SysLog), Setup(WifiMode), Setup(WifiJoin), Setup(MqttClean),
                      Setup(MqttConfig), Setup(MqttConnect), Setup(MqttSubscribe), Setup(MqttAnnounce)]
                   + (if resumed then [ClearHeader] else [])
  {
    hide TickAt, Attends, Run, Standing;
    FirstCommand(s, now, env);
    resumed := Climb(TickAt(s, now, env), inputs, 0, refused, s.k.sent, s.k.retries);
    assert Commands(10)
        == [Setup(Sync), Setup(EchoOff), Setup(SysLog), Setup(WifiMode), Setup(WifiJoin), Setup(MqttClean),
            Setup(MqttConfig), Setup(MqttConnect), Setup(MqttSubscribe), Setup(MqttAnnounce)];
  }

  /** After a reset nothing else has been sent. */
  lemma BringUpFromReset(board: Board, start: u32, now: u32, env: Env, inputs: seq<Input>, refused: bool)
    returns (resumed: bool)
    requires Attends(TickAt(Initial(board, start), now, env), inputs, Replies(0, refused))
    ensures var k := Run(TickAt(Initial(board, start), now, env), inputs).k;
      && (resumed ==> k.requested)
      && k.state == (if resumed then OtaClearHeader else Online) && k.retries == 0
      && k.sent == [Setup(Sync), Setup(EchoOff), Setup(SysLog), Setup(WifiMode), Setup(WifiJoin), Setup(MqttClean),
                    Setup(MqttConfig), Setup(MqttConnect), Setup(MqttSubscribe), Setup(MqttAnnounce)]
                   + (if resumed then [ClearHeader] else [])
  {
    hide TickAt, Attends, Run;
    resumed := BringUp(Initial(board, start), now, env, inputs, refused);
  }
}
