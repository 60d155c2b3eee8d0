/** ChAuto.cpp on the kernel: a server that sends itself the one message that drives it,
    receiving a request, classifying it, answering it and receiving again. */
module Channel {
  import opened Words
  import opened Sequences
  import opened Topics
  import opened Publications

  // ---------- states, messages, handlers ----------

  const IDLE := 0
  const CONNECTED := 1
  const SHARE_DATA_ON_TOPIC := 2
  const STORE_DATA := 3
  const SHARE_ALL_TOPICS := 4
  const PUBLISH_ACK := 5

  const MSG_WAIT_CL_MESSAGE: uint16 := 0x01
  const MSG_CONNECTION_FAILED: uint16 := 0x02
  const MSG_ACK_NOTIFICATION: uint16 := 0x16
  const MSG_STAY_CONNECTED: uint16 := 0x17
  const MSG_SHARE_DATA_ON_TOPIC: uint16 := 0x18
  const MSG_STORE_DATA_ON_TOPIC: uint16 := 0x19
  const MSG_SHARE_ALL_TOPICS: uint16 := 0x20

  const BUFFERS := 50
  const BRANCHES := 3          // that a state may have
  const ACK_MESSAGE := "Topic added successfully!`"

  datatype Procedure = ClConnected | ClFailed | StoreDataSubPub | ShareData | ShareAll | PublishAck | DoNothing

  datatype Branch = Branch(event: uint16, proc: Procedure)

  datatype StateTable = StateTable(valid: bool, branches: seq<Branch>, unexpected: Procedure)

  /** The branch table that ChAuto::Initialize builds. */
  const TABLE: seq<StateTable> := [
    StateTable(true, [Branch(MSG_WAIT_CL_MESSAGE, ClConnected), Branch(MSG_CONNECTION_FAILED, ClFailed)], DoNothing),
    StateTable(true, [Branch(MSG_STAY_CONNECTED, ClConnected), Branch(MSG_STORE_DATA_ON_TOPIC, StoreDataSubPub)], DoNothing),
    StateTable(true, [Branch(MSG_STAY_CONNECTED, ClConnected)], DoNothing),
    StateTable(true, [Branch(MSG_SHARE_DATA_ON_TOPIC, ShareData), Branch(MSG_SHARE_ALL_TOPICS, ShareAll), Branch(MSG_ACK_NOTIFICATION, PublishAck)], DoNothing),
    StateTable(true, [Branch(MSG_STAY_CONNECTED, ClConnected)], DoNothing),
    StateTable(true, [Branch(MSG_STAY_CONNECTED, ClConnected)], DoNothing)
  ]

  /** GetProcedure: the branch bound to the event, or the procedure for unexpected ones. */
  function ProcOf(branches: seq<Branch>, unexpected: Procedure, event: uint16): Procedure {
    if branches == [] then unexpected
    else if branches[0].event == event then branches[0].proc
    else ProcOf(branches[1..], unexpected, event)
  }

  predicate Bound(branches: seq<Branch>, event: uint16) {
    exists i :: 0 <= i < |branches| && branches[i].event == event
  }

  // ---------- requests and answers ----------

  datatype Request = Publish | Subscribe(topic: CString) | ListTopics | Unknown

  predicate StartsWith(text: string, word: string) {
    |word| <= |text| && text[..|word|] == word
  }

  function Classify(text: CString): Request {
    if StartsWith(text, "PUB") then Publish
    else if StartsWith(text, "SUB") then
      Subscribe(if |text| >= FIRST_LETTER_OF_TOPIC then text[FIRST_LETTER_OF_TOPIC..] else "")
    else if StartsWith(text, "LIST") then ListTopics
    else Unknown
  }

  function Answer(r: Request, store: Store): string {
    match r
    case Publish => ACK_MESSAGE
    case Subscribe(topic) => Lookup(store, topic)
    case ListTopics => Listing(store)
    case Unknown => ""
  }

  /** What an observer of the server sees. */
  datatype Io =
    | NoSockets                // start-up stopped before anything was sent
    | Failed                   // the server socket could not be set up
    | Received(text: CString)
    | Unrecognised
    | Replied(answer: string, store: Store, ok: bool)

  /** What the world contributes to a dispatch: the text received (empty on a receive error),
      what stands in memory behind a request and behind an amended record, and whether
      sending succeeds. */
  datatype Input = Input(text: CString, behind: CString, stale: CString, sent: bool)

  datatype View = View(state: nat, mailbox: seq<uint16>, free: nat, data: CString, topic: CString,
                       store: Store, log: seq<Io>)

  type Store = ts: seq<Topic> | forall i :: 0 <= i < |ts| ==> WellFormed(ts[i]) witness []

  /** The store after the publication in `text`. */
  function StoreAfter(store: Store, text: CString, input: Input): Store {
    PublishedWellFormed(store, PubTopic(text), PubBody(text, input.behind), input.stale);
    Published(store, PubTopic(text), PubBody(text, input.behind), input.stale)
  }

  // ---------- one dispatch ----------

  function Send(v: View, code: uint16): View
    requires v.free > 0
  {
    v.(mailbox := v.mailbox + [code], free := v.free - 1)
  }

  function Reply(v: View, text: string, sent: bool): View
    requires v.free > 0
  {
    var v' := v.(log := v.log + [Replied(text, v.store, sent)]);
    if sent then Send(v', MSG_STAY_CONNECTED) else v'
  }

  function Handle(v: View, proc: Procedure, input: Input): View
    requires v.free > 0
  {
    match proc
    case ClConnected =>
      Send(v.(state := CONNECTED, data := input.text, log := v.log + [Received(input.text)]), MSG_STORE_DATA_ON_TOPIC)
    case ClFailed => v.(state := IDLE, log := v.log + [Failed])
    case StoreDataSubPub => (
      match Classify(v.data)
      case Publish =>
        Send(v.(state := STORE_DATA, topic := PubTopic(v.data), store := StoreAfter(v.store, v.data, input)), MSG_ACK_NOTIFICATION)
      case Subscribe(topic) => Send(v.(state := STORE_DATA, topic := topic), MSG_SHARE_DATA_ON_TOPIC)
      case ListTopics => Send(v.(state := STORE_DATA), MSG_SHARE_ALL_TOPICS)
      case Unknown => v.(state := STORE_DATA, log := v.log + [Unrecognised])
    )
    case ShareData => Reply(v.(state := SHARE_DATA_ON_TOPIC), Lookup(v.store, v.topic), input.sent)
    case ShareAll => Reply(v.(state := SHARE_ALL_TOPICS), Listing(v.store), input.sent)
    case PublishAck => Reply(v.(state := PUBLISH_ACK), ACK_MESSAGE, input.sent)
    case DoNothing => v
  }

  /** The dispatcher takes the front message, runs its procedure, and gives it back. */
  function Dispatch(v: View, input: Input): View
    requires v.mailbox != [] && v.state < |TABLE| && v.free > 0
  {
    var t := TABLE[v.state];
    GivenBack(Handle(v.(mailbox := v.mailbox[1..]), ProcOf(t.branches, t.unexpected, v.mailbox[0]), input))
  }

  /** ClearMessage: the handled message goes back to the pool. */
  function GivenBack(v: View): View {
    v.(free := v.free + 1)
  }

  datatype Startup = NoWinsock | NoServerSocket | Serving

  function Started(store: Store, how: Startup): (v: View)
    ensures Inv(v)
  {
    var v := View(IDLE, [], BUFFERS, "", "", store, []);
    match how
    case NoWinsock => v.(log := [NoSockets])
    case NoServerSocket => Send(v, MSG_CONNECTION_FAILED)
    case Serving => Send(v, MSG_WAIT_CL_MESSAGE)
  }

  // ---------- what every reachable state satisfies ----------

  /** Every event follows from the one before: a reply answers the request just received,
      and the next receive comes after a reply that was sent. */
  predicate Follows(a: Io, b: Io) {
    match b
    case Received(text) => a.Replied? && a.ok
    case Replied(text, store, ok) =>
      a.Received? && Classify(a.text) != Unknown && text == Answer(Classify(a.text), store)
    case Unrecognised => a.Received? && Classify(a.text) == Unknown
    case _ => false
  }

  predicate Ordered(log: seq<Io>) {
    && (log != [] ==> !log[0].Replied? && !log[0].Unrecognised?)
    && forall i :: 0 <= i < |log| - 1 ==> Follows(log[i], log[i + 1])
  }

  /** After this event the server is silent for good. */
  predicate Final(e: Io) {
    match e
    case NoSockets => true
    case Failed => true
    case Unrecognised => true
    case Replied(text, store, ok) => !ok
    case Received(text) => false
  }

  predicate Ended(log: seq<Io>) {
    log != [] && Final(log[|log| - 1])
  }

  /** The request that waits for its answer. */
  predicate Pending(v: View) {
    v.log != [] && v.log[|v.log| - 1] == Received(v.data)
  }

  predicate Sent(log: seq<Io>) {
    log != [] && log[|log| - 1].Replied? && log[|log| - 1].ok
  }

  /** The one message fits the state, and the log fits both. */
  predicate OnTrack(v: View, code: uint16) {
    if v.state == IDLE then
      v.log == [] && code in {MSG_WAIT_CL_MESSAGE, MSG_CONNECTION_FAILED}
    else if v.state == CONNECTED then
      Pending(v) && code == MSG_STORE_DATA_ON_TOPIC
    else if v.state == STORE_DATA then
      && Pending(v)
      && match Classify(v.data)
         case Publish => code == MSG_ACK_NOTIFICATION
         case Subscribe(topic) => code == MSG_SHARE_DATA_ON_TOPIC && v.topic == topic
         case ListTopics => code == MSG_SHARE_ALL_TOPICS
         case Unknown => false
    else
      Sent(v.log) && code == MSG_STAY_CONNECTED
  }

  predicate Inv(v: View) {
    && v.state < |TABLE|
    && v.free + |v.mailbox| == BUFFERS
    && Ordered(v.log)
    && (v.mailbox == [] || (|v.mailbox| == 1 && OnTrack(v, v.mailbox[0]) && !Ended(v.log)))
    && (v.mailbox == [] ==> Ended(v.log))
  }

  /** Finding a branch by the loop of GetProcedure. */
  lemma {:induction false} ProcAt(branches: seq<Branch>, unexpected: Procedure, event: uint16, i: nat)
    requires i < |branches| && branches[i].event == event
    requires forall j :: 0 <= j < i ==> branches[j].event != event
    ensures ProcOf(branches, unexpected, event) == branches[i].proc && Bound(branches, event)
    decreases i
  {
    if i > 0 {
      ProcAt(branches[1..], unexpected, event, i - 1);
    }
  }

  /** The procedure that each message on track runs. */
  function Driver(v: View, code: uint16): Procedure {
    if v.state == IDLE then (if code == MSG_WAIT_CL_MESSAGE then ClConnected else ClFailed)
    else if v.state == CONNECTED then StoreDataSubPub
    else if v.state == STORE_DATA then
      match Classify(v.data)
      case Publish => PublishAck
      case Subscribe(topic) => ShareData
      case ListTopics => ShareAll
      case Unknown => DoNothing
    else ClConnected
  }

  /** The message in flight has a branch of its own in the current state: the procedure for
      unexpected events never runs. */
  lemma OnTrackBound(v: View, code: uint16)
    requires v.state < |TABLE| && OnTrack(v, code)
    ensures TABLE[v.state].valid && Bound(TABLE[v.state].branches, code)
    ensures ProcOf(TABLE[v.state].branches, TABLE[v.state].unexpected, code) == Driver(v, code) != DoNothing
  {
    hide ProcOf, Bound;
    var t := TABLE[v.state];
    var i := if v.state == IDLE then (if code == MSG_WAIT_CL_MESSAGE then 0 else 1)
             else if v.state == CONNECTED then 1
             else if v.state == STORE_DATA then
               (if code == MSG_SHARE_DATA_ON_TOPIC then 0 else if code == MSG_SHARE_ALL_TOPICS then 1 else 2)
             else 0;
    ProcAt(t.branches, t.unexpected, code, i);
  }

  /** The whole table: which message runs what in which state. */
  lemma TableBinds(state: nat, event: uint16)
    requires state < |TABLE|
    ensures var t := TABLE[state];
            && t.valid
            && ProcOf(t.branches, t.unexpected, event)
               == if event == MSG_STAY_CONNECTED && state != IDLE && state != STORE_DATA then ClConnected
                  else if state == IDLE && event == MSG_WAIT_CL_MESSAGE then ClConnected
                  else if state == IDLE && event == MSG_CONNECTION_FAILED then ClFailed
                  else if state == CONNECTED && event == MSG_STORE_DATA_ON_TOPIC then StoreDataSubPub
                  else if state == STORE_DATA && event == MSG_SHARE_DATA_ON_TOPIC then ShareData
                  else if state == STORE_DATA && event == MSG_SHARE_ALL_TOPICS then ShareAll
                  else if state == STORE_DATA && event == MSG_ACK_NOTIFICATION then PublishAck
                  else DoNothing
  {
    var t := TABLE[state];
    if t.branches[0].event == event {
      ProcAt(t.branches, t.unexpected, event, 0);
    } else if |t.branches| > 1 && t.branches[1].event == event {
      ProcAt(t.branches, t.unexpected, event, 1);
    } else if |t.branches| > 2 && t.branches[2].event == event {
      ProcAt(t.branches, t.unexpected, event, 2);
    } else {
      NotBound(t.branches, t.unexpected, event);
    }
  }

  lemma {:induction false} NotBound(branches: seq<Branch>, unexpected: Procedure, event: uint16)
    requires forall j :: 0 <= j < |branches| ==> branches[j].event != event
    ensures ProcOf(branches, unexpected, event) == unexpected && !Bound(branches, event)
  {
    if branches != [] {
      NotBound(branches[1..], unexpected, event);
    }
  }

  /** What may be logged next. */
  predicate MayFollow(log: seq<Io>, e: Io) {
    if log == [] then !e.Replied? && !e.Unrecognised? else Follows(log[|log| - 1], e)
  }

  lemma OrderedSnoc(log: seq<Io>, e: Io)
    requires Ordered(log) && MayFollow(log, e)
    ensures Ordered(log + [e])
    ensures (log + [e])[|log + [e]| - 1] == e
  {
    hide Follows;
  }

  lemma ReceiveInv(v: View, input: Input)
    requires Ordered(v.log) && v.mailbox == [] && v.free == BUFFERS - 1 && (v.log == [] || Sent(v.log))
    ensures Inv(GivenBack(Handle(v, ClConnected, input)))
  {
    OrderedSnoc(v.log, Received(input.text));
    hide Ordered;
  }

  lemma FailedInv(v: View, input: Input)
    requires v.log == [] && v.mailbox == [] && v.free == BUFFERS - 1
    ensures Inv(GivenBack(Handle(v, ClFailed, input)))
  {
  }

  lemma ClassifyInv(v: View, input: Input)
    requires Ordered(v.log) && v.mailbox == [] && v.free == BUFFERS - 1 && Pending(v)
    ensures Inv(GivenBack(Handle(v, StoreDataSubPub, input)))
  {
    if Classify(v.data) == Unknown {
      OrderedSnoc(v.log, Unrecognised);
    }
    hide Ordered, Classify;
  }

  lemma ReplyInv(v: View, text: string, sent: bool)
    requires Ordered(v.log) && v.mailbox == [] && v.free == BUFFERS - 1 && Pending(v)
    requires Classify(v.data) != Unknown && text == Answer(Classify(v.data), v.store)
    requires v.state in {SHARE_DATA_ON_TOPIC, SHARE_ALL_TOPICS, PUBLISH_ACK}
    ensures Inv(GivenBack(Reply(v, text, sent)))
  {
    OrderedSnoc(v.log, Replied(text, v.store, sent));
    hide Ordered, Classify, Answer;
  }

  /** One dispatch keeps the invariant, whatever the world does. */
  lemma DispatchInv(v: View, input: Input)
    requires Inv(v) && v.mailbox != []
    ensures v.free > 0 && Inv(Dispatch(v, input))
  {
    hide ProcOf, Ordered, Classify, Answer, Follows, Handle;
    var code := v.mailbox[0];
    OnTrackBound(v, code);
    var taken := v.(mailbox := v.mailbox[1..]);
    DriverInv(v, taken, code, input);
  }

  lemma DriverInv(v: View, taken: View, code: uint16, input: Input)
    requires Inv(v) && v.mailbox == [code] && taken == v.(mailbox := [])
    ensures Inv(GivenBack(Handle(taken, Driver(v, code), input)))
  {
    hide Ordered, Classify, Lookup, Listing, Follows;
    match Driver(v, code)
    case ClConnected => ReceiveInv(taken, input);
    case ClFailed => FailedInv(taken, input);
    case StoreDataSubPub => ClassifyInv(taken, input);
    case ShareData => ReplyInv(taken.(state := SHARE_DATA_ON_TOPIC), Lookup(v.store, v.topic), input.sent);
    case ShareAll => ReplyInv(taken.(state := SHARE_ALL_TOPICS), Listing(v.store), input.sent);
    case PublishAck => ReplyInv(taken.(state := PUBLISH_ACK), ACK_MESSAGE, input.sent);
    case DoNothing => OnTrackBound(v, code);
  }

  // ---------- whole runs ----------

  /** The server under any inputs; with an empty mailbox the dispatcher waits for ever. */
  function Run(v: View, inputs: seq<Input>): (r: View)
    requires Inv(v)
    ensures Inv(r)
    decreases |inputs|
  {
    if inputs == [] || v.mailbox == [] then v
    else
      DispatchInv(v, inputs[0]);
      Run(Dispatch(v, inputs[0]), inputs[1..])
  }

  /** The single-token protocol, in every reachable state: at most one message, which has a
      branch in the current state; none exactly after a failed start, an unrecognised command
      or a failed send; and requests and replies strictly alternate, each reply answering the
      request before it. */
  lemma ServerKeepsToken(store: Store, how: Startup, inputs: seq<Input>)
    ensures var v := Run(Started(store, how), inputs);
            && |v.mailbox| <= 1 && v.free >= BUFFERS - 1
            && (v.mailbox != [] ==> TABLE[v.state].valid && Bound(TABLE[v.state].branches, v.mailbox[0]))
            && (v.mailbox == [] <==> Ended(v.log))
            && Ordered(v.log)
  {
    var v := Run(Started(store, how), inputs);
    if v.mailbox != [] {
      OnTrackBound(v, v.mailbox[0]);
    }
  }

  /** Even while a message is being handled, with the received and the new message both in
      use, 48 of the 50 buffers are free. */
  lemma FreeDuringDispatch(v: View, input: Input)
    requires Inv(v) && v.mailbox != []
    ensures var t := TABLE[v.state];
            var taken := v.(mailbox := v.mailbox[1..]);
            taken.free == BUFFERS - 1
            && Handle(taken, ProcOf(t.branches, t.unexpected, v.mailbox[0]), input).free >= BUFFERS - 2
  {
    hide ProcOf, Classify, Lookup, Listing, Ordered;
  }

  function Receives(log: seq<Io>): nat {
    if log == [] then 0 else Receives(log[..|log| - 1]) + (if log[|log| - 1].Received? then 1 else 0)
  }

  function Replies(log: seq<Io>): nat {
    if log == [] then 0 else Replies(log[..|log| - 1]) + (if log[|log| - 1].Replied? then 1 else 0)
  }

  function Refusals(log: seq<Io>): nat {
    if log == [] then 0 else Refusals(log[..|log| - 1]) + (if log[|log| - 1].Unrecognised? then 1 else 0)
  }

  /** Every receive but a last, still pending one has exactly one reply attempt or is the one
      that was not recognised. */
  lemma {:induction false} RepliesMatchReceives(log: seq<Io>)
    requires Ordered(log)
    ensures Receives(log) == Replies(log) + Refusals(log) + (if log != [] && log[|log| - 1].Received? then 1 else 0)
  {
    if log != [] {
      var before := log[..|log| - 1];
      RepliesMatchReceives(before);
      if before != [] {
        assert Follows(log[|log| - 2], log[|log| - 1]);
      }
    }
  }

  /** A request that is recognised is answered two dispatches later, by what the store holds
      after it was classified. */
  lemma AnsweredNext(v: View, a: Input, b: Input)
    requires Inv(v) && v.state == CONNECTED && v.mailbox != [] && Classify(v.data) != Unknown
    ensures var store := if Classify(v.data) == Publish then StoreAfter(v.store, v.data, a) else v.store;
            Run(v, [a, b]).log == v.log + [Replied(Answer(Classify(v.data), store), store, b.sent)]
            && Run(v, [a, b]).store == store
  {
    hide Classify, Lookup, Listing, ProcOf, Bound, Ordered, Follows, StoreAfter;
    OnTrackBound(v, v.mailbox[0]);
    DispatchInv(v, a);
    var w := Dispatch(v, a);
    OnTrackBound(w, w.mailbox[0]);
    DispatchInv(w, b);
    assert [a, b][1..] == [b] && [b][1..] == [];
    assert Run(v, [a, b]) == Run(w, [b]);
    assert Run(w, [b]) == Run(Dispatch(w, b), []) == Dispatch(w, b);
  }

  /** Running goes on where it stopped. */
  lemma {:induction false} RunOn(v: View, xs: seq<Input>, ys: seq<Input>)
    requires Inv(v)
    ensures Run(v, xs + ys) == Run(Run(v, xs), ys)
    decreases |xs|
  {
    hide Ordered, OnTrack, Ended, Dispatch;
    if xs == [] {
      assert xs + ys == ys;
    } else if v.mailbox != [] {
      DispatchInv(v, xs[0]);
      assert (xs + ys)[0] == xs[0] && (xs + ys)[1..] == xs[1..] + ys;
      RunOn(Dispatch(v, xs[0]), xs[1..], ys);
    }
  }

  /** A reply that was sent leads to the next receive. */
  lemma ReceivedNext(v: View, input: Input)
    requires Inv(v) && Sent(v.log)
    ensures var w := Run(v, [input]);
            && Inv(w) && w.state == CONNECTED && w.mailbox != [] && w.data == input.text && w.store == v.store
            && w.log == v.log + [Received(input.text)]
  {
    hide Classify, Ordered, Follows, ProcOf, Bound;
    assert v.mailbox != [];
    OnTrackBound(v, v.mailbox[0]);
    DispatchInv(v, input);
    assert [input][1..] == [];
    assert Run(v, [input]) == Run(Dispatch(v, input), []) == Dispatch(v, input);
  }

  lemma PublicationParts(text: CString, topic: CString, body: CString, behind: CString)
    requires SPACE !in topic && text == "PUB " + topic + " " + body
    ensures Classify(text) == Publish && PubTopic(text) == topic && PubBody(text, behind) == body
  {
    assert text[..3] == "PUB";
    var i := FIRST_LETTER_OF_TOPIC + |topic|;
    assert text[FIRST_LETTER_OF_TOPIC..i] == topic && text[i] == SPACE && text[i + 1..] == body;
    assert forall k :: FIRST_LETTER_OF_TOPIC <= k < i ==> text[k] == topic[k - FIRST_LETTER_OF_TOPIC];
    assert Find(text, SPACE, FIRST_LETTER_OF_TOPIC) == i;
  }

  lemma SubscriptionParts(text: CString, topic: CString)
    requires text == "SUB " + topic
    ensures Classify(text) == Subscribe(topic)
  {
    assert text[..3] == "SUB" && text[FIRST_LETTER_OF_TOPIC..] == topic;
    assert "SUB"[0] != "PUB"[0];
  }

  /** PUB of a topic that shares its first letter with no record, then SUB of it, in five
      dispatches: the subscriber gets what was published if and only if the topic is all
      capitals and the data holds no end mark. */
  lemma PublishThenSubscribe(v: View, topic: CString, body: CString, a: Input, b: Input, c: Input, d: Input, e: Input)
    requires Inv(v) && v.state == CONNECTED && v.mailbox != []
    requires SPACE !in topic && v.data == "PUB " + topic + " " + body && c.text == "SUB " + topic && b.sent
    requires Named(v.store) && forall i :: 0 <= i < |v.store| ==> !SharesFirst(v.store[i], topic)
    ensures var store := Published(v.store, topic, body, a.stale);
            var answer := Lookup(store, topic);
            && (forall i :: 0 <= i < |store| ==> WellFormed(store[i]))
            && Run(v, [a, b, c, d, e]).log
               == v.log + [Replied(ACK_MESSAGE, store, true), Received(c.text), Replied(answer, store, e.sent)]
            && (answer == Expected(topic, body) <==> topic == Capitals(topic) && MARK !in body)
  {
    hide Inv, Classify, Lookup, Published, PubTopic, PubBody, Expected, Capitals, WellFormed, Run, SharesFirst, Named, Answer;
    PublicationParts(v.data, topic, body, a.behind);
    SubscriptionParts(c.text, topic);
    PublishedAnswered(v.store, topic, body, a.stale);
    PublishedWellFormed(v.store, topic, body, a.stale);
    var store := Published(v.store, topic, body, a.stale);
    AnsweredNext(v, a, b);
    var w := Run(v, [a, b]);
    AnswerOf(v.data, c.text, store, topic);
    ReceivedNext(w, c);
    var x := Run(w, [c]);
    AnsweredNext(x, d, e);
    RunOn(v, [a, b], [c, d, e]);
    RunOn(w, [c], [d, e]);
    assert [a, b] + [c, d, e] == [a, b, c, d, e] && [c] + [d, e] == [c, d, e];
  }

  lemma AnswerOf(text: CString, next: CString, store: Store, topic: CString)
    requires Classify(text) == Publish && Classify(next) == Subscribe(topic)
    ensures Answer(Classify(text), store) == ACK_MESSAGE && Answer(Classify(next), store) == Lookup(store, topic)
  {
  }

  // ---------- which request a text is ----------

  /** By its first characters, as the source compares them. */
  lemma ClassifyIff(text: CString)
    ensures Classify(text).Publish? <==> |text| >= 3 && text[0] == 'P' && text[1] == 'U' && text[2] == 'B'
    ensures Classify(text).Subscribe? <==> |text| >= 3 && text[0] == 'S' && text[1] == 'U' && text[2] == 'B'
    ensures Classify(text).ListTopics? <==>
              |text| >= 4 && text[0] == 'L' && text[1] == 'I' && text[2] == 'S' && text[3] == 'T'
  {
    assert |text| >= 3 ==> text[..3] == [text[0], text[1], text[2]];
    assert |text| >= 4 ==> text[..4] == [text[0], text[1], text[2], text[3]];
  }

  /** A request for the topics: two dispatches later the client is sent exactly the names of
      the store, which it reads by splitting the text, behind them the one end mark. */
  lemma ListAnswered(v: View, a: Input, b: Input)
    requires Inv(v) && v.state == CONNECTED && v.mailbox != []
    requires |v.data| >= 4 && v.data[0] == 'L' && v.data[1] == 'I' && v.data[2] == 'S' && v.data[3] == 'T'
    ensures var log := Run(v, [a, b]).log;
            && |log| == |v.log| + 1 && log[..|v.log|] == v.log && log[|v.log|].Replied?
            && log[|v.log|].ok == b.sent && Ends(log[|v.log|].answer)
            && ((forall i :: 0 <= i < |v.store| ==> '\n' !in v.store[i].name) ==>
                  var names := Names(log[|v.log|].answer, "");
                  |names| == |v.store| && forall i :: 0 <= i < |names| ==> names[i] == v.store[i].name)
  {
    hide Inv, Run, Listing, Names, Ends;
    ClassifyIff(v.data);
    AnsweredNext(v, a, b);
    ListingMarked(v.store);
    if forall i :: 0 <= i < |v.store| ==> '\n' !in v.store[i].name {
      ListingNamesAll(v.store);
    }
  }

  /** A publication: two dispatches later it is acknowledged, and the store holds it. */
  lemma PublishAnswered(v: View, a: Input, b: Input)
    requires Inv(v) && v.state == CONNECTED && v.mailbox != []
    requires |v.data| >= 3 && v.data[0] == 'P' && v.data[1] == 'U' && v.data[2] == 'B'
    ensures var store := Published(v.store, PubTopic(v.data), PubBody(v.data, a.behind), a.stale);
            && (forall i :: 0 <= i < |store| ==> WellFormed(store[i]))
            && Run(v, [a, b]).store == store
            && Run(v, [a, b]).log == v.log + [Replied("Topic added successfully!`", store, b.sent)]
  {
    hide Inv, Run, Published, PubTopic, PubBody, WellFormed;
    ClassifyIff(v.data);
    PublishedWellFormed(v.store, PubTopic(v.data), PubBody(v.data, a.behind), a.stale);
    AnsweredNext(v, a, b);
  }

  /** A subscription: two dispatches later the client is sent the lookup of what stands behind
      the first four characters. */
  lemma SubscribeAnswered(v: View, a: Input, b: Input)
    requires Inv(v) && v.state == CONNECTED && v.mailbox != []
    requires |v.data| >= 4 && v.data[0] == 'S' && v.data[1] == 'U' && v.data[2] == 'B'
    ensures Run(v, [a, b]).log == v.log + [Replied(Lookup(v.store, v.data[4..]), v.store, b.sent)]
    ensures Ends(Lookup(v.store, v.data[4..]))
  {
    hide Inv, Run, Lookup, Ends;
    ClassifyIff(v.data);
    assert Classify(v.data) == Subscribe(v.data[4..]);
    AnsweredNext(v, a, b);
    LookupMarked(v.store, v.data[4..]);
  }

  /** A text is refused, and the server silent for good, if and only if its first characters
      spell none of PUB, SUB and LIST. */
  lemma RefusedIff(v: View, a: Input, more: seq<Input>)
    requires Inv(v) && v.state == CONNECTED && v.mailbox != []
    ensures var w, text := Run(v, [a]), v.data;
            var known := || (|text| >= 3 && text[0] == 'P' && text[1] == 'U' && text[2] == 'B')
                         || (|text| >= 3 && text[0] == 'S' && text[1] == 'U' && text[2] == 'B')
                         || (|text| >= 4 && text[0] == 'L' && text[1] == 'I' && text[2] == 'S' && text[3] == 'T');
            && (!known <==> w.log == v.log + [Unrecognised])
            && (!known ==> Run(v, [a] + more) == w)
            && (known ==> w.log == v.log && w.mailbox != [])
  {
    hide Classify, Lookup, Listing, ProcOf, Bound, Ordered, Follows, StoreAfter;
    ClassifyIff(v.data);
    OnTrackBound(v, v.mailbox[0]);
    DispatchInv(v, a);
    assert [a][1..] == [] && ([a] + more)[0] == a && ([a] + more)[1..] == more;
    assert Run(v, [a]) == Run(Dispatch(v, a), []) == Dispatch(v, a);
    assert |v.log + [Unrecognised]| == |v.log| + 1;
  }

  /** The first dispatch after each outcome of start-up: nothing without sockets, the failure
      and then silence without a server socket, and the first request of a server that serves. */
  lemma FirstDispatch(store: Store, how: Startup, input: Input)
    ensures var w := Run(Started(store, how), [input]);
            match how
            case NoWinsock => w.log == [NoSockets] && w.mailbox == []
            case NoServerSocket => w.log == [Failed] && w.mailbox == [] && w.state == IDLE
            case Serving => w.log == [Received(input.text)] && w.state == CONNECTED && w.mailbox != []
  {
    hide Classify, Ordered, Follows, ProcOf, Bound;
    var v := Started(store, how);
    assert [input][1..] == [];
    if how != NoWinsock {
      OnTrackBound(v, v.mailbox[0]);
      DispatchInv(v, input);
      assert Run(v, [input]) == Run(Dispatch(v, input), []) == Dispatch(v, input);
    }
  }

  // ---------- the automate ----------

  /** The first binding makes a state valid. */
  function Validated(t: StateTable): StateTable {
    if t.valid then t else StateTable(true, t.branches, DoNothing)
  }

  function WithBranch(t: StateTable, event: uint16, proc: Procedure): StateTable {
    StateTable(true, t.branches + [Branch(event, proc)], Validated(t).unexpected)
  }

  const BLANK := StateTable(false, [], DoNothing)

  class ChAuto {
    var states: seq<StateTable>
    var state: nat
    var currentMessage: Option<uint16>
    var newMessage: Option<uint16>
    var mailbox: seq<uint16>           // the codes of the queued messages
    var free: nat                      // the free buffers of the pool
    var dataBuffer: CString
    var currentTopic: CString
    var allServerData: seq<string>
    ghost var topics: Store
    ghost var log: seq<Io>

    ghost predicate Valid()
      reads this
    {
      && states == TABLE && Stored(allServerData, topics)
      && currentMessage == None && newMessage == None
      && Inv(Abs())
    }

    ghost function Abs(): View
      reads this
    {
      View(state, mailbox, free, dataBuffer, currentTopic, topics, log)
    }

    /** InitEventProc: false stands for its exceptions. A repeated event is refused; one branch
        too many is bound before it is found to be one. */
    method InitEventProc(state: nat, event: uint16, proc: Procedure) returns (ok: bool)
      requires state < |states|
      modifies `states
      ensures var was := old(states[state]);
              && ok == (!Bound(was.branches, event) && |was.branches| < BRANCHES)
              && states == if Bound(was.branches, event) then old(states)[state := Validated(was)]
                           else old(states)[state := WithBranch(was, event, proc)]
    {
      var t := Validated(states[state]);
      states := states[state := t];
      var i := 0;
      while i < |t.branches|
        invariant i <= |t.branches|
        invariant forall j :: 0 <= j < i ==> t.branches[j].event != event
      {
        if t.branches[i].event == event {
          return false;
        }
        i := i + 1;
      }
      states := states[state := WithBranch(t, event, proc)];
      return |states[state].branches| <= BRANCHES;
    }

    /** GetProcedure: the state must have been initialised, as the source asserts. */
    method GetProcedure(event: uint16) returns (proc: Procedure)
      requires state < |states| && states[state].valid
      ensures proc == ProcOf(states[state].branches, states[state].unexpected, event)
    {
      var t := states[state];
      var i := 0;
      while i < |t.branches|
        invariant i <= |t.branches|
        invariant ProcOf(t.branches, t.unexpected, event) == ProcOf(t.branches[i..], t.unexpected, event)
      {
        if t.branches[i].event == event {
          return t.branches[i].proc;
        }
        assert t.branches[i..][1..] == t.branches[i + 1..];
        i := i + 1;
      }
      return t.unexpected;
    }

    /** PrepareNewMessage and SendMessage to the own mailbox. While the handled message is
        still held, at least 48 buffers stay free. */
    method SendToSelf(code: uint16)
      requires newMessage == None && free >= BUFFERS - 1
      modifies this
      ensures Abs() == Send(old(Abs()), code) && free >= BUFFERS - 2 && newMessage == None
      ensures states == old(states) && currentMessage == old(currentMessage) && allServerData == old(allServerData)
    {
      free := free - 1;
      newMessage := Some(code);
      mailbox := mailbox + [newMessage.value];
      newMessage := None;
    }

    /** The constructor and ChAuto::Initialize. */
    constructor (buffers: nat, ghost store: Store, texts: seq<string>)
      requires Stored(texts, store) && buffers == BUFFERS
      ensures states == TABLE && Abs() == View(IDLE, [], BUFFERS, "", "", store, [])
      ensures Stored(allServerData, topics) && currentMessage == None && newMessage == None
    {
      states := seq(6, _ => BLANK);
      state, mailbox, free, dataBuffer, currentTopic := IDLE, [], buffers, "", "";
      currentMessage, newMessage := None, None;
      allServerData, topics, log := texts, store, [];
      new;
      Initialize();
    }

    method Initialize()
      requires states == seq(6, _ => BLANK)
      modifies `states
      ensures states == TABLE
    {
      InitFirst(IDLE, MSG_WAIT_CL_MESSAGE, ClConnected);
      InitNext(IDLE, MSG_CONNECTION_FAILED, ClFailed);
      assert states[IDLE].branches == TABLE[IDLE].branches;
      InitFirst(CONNECTED, MSG_STAY_CONNECTED, ClConnected);
      InitNext(CONNECTED, MSG_STORE_DATA_ON_TOPIC, StoreDataSubPub);
      assert states[CONNECTED].branches == TABLE[CONNECTED].branches;
      InitFirst(STORE_DATA, MSG_SHARE_DATA_ON_TOPIC, ShareData);
      InitNext(STORE_DATA, MSG_SHARE_ALL_TOPICS, ShareAll);
      assert states[STORE_DATA].branches ==
        [Branch(MSG_SHARE_DATA_ON_TOPIC, ShareData), Branch(MSG_SHARE_ALL_TOPICS, ShareAll)];
      InitNext(STORE_DATA, MSG_ACK_NOTIFICATION, PublishAck);
      assert states[STORE_DATA].branches == TABLE[STORE_DATA].branches;
      InitFirst(PUBLISH_ACK, MSG_STAY_CONNECTED, ClConnected);
      InitFirst(SHARE_ALL_TOPICS, MSG_STAY_CONNECTED, ClConnected);
      InitFirst(SHARE_DATA_ON_TOPIC, MSG_STAY_CONNECTED, ClConnected);
      assert states[IDLE] == TABLE[IDLE] && states[CONNECTED] == TABLE[CONNECTED];
      assert states[SHARE_DATA_ON_TOPIC] == TABLE[SHARE_DATA_ON_TOPIC] && states[STORE_DATA] == TABLE[STORE_DATA];
      assert states[SHARE_ALL_TOPICS] == TABLE[SHARE_ALL_TOPICS] && states[PUBLISH_ACK] == TABLE[PUBLISH_ACK];
    }

    /** The first branch of a state, and a further one with a new event. */
    method InitFirst(state: nat, event: uint16, proc: Procedure)
      requires state < |states| && states[state] == BLANK
      modifies `states
      ensures states == old(states)[state := StateTable(true, [Branch(event, proc)], DoNothing)]
    {
      var ok := InitEventProc(state, event, proc);
      assert ok;
      assert [] + [Branch(event, proc)] == [Branch(event, proc)];
    }

    method InitNext(state: nat, event: uint16, proc: Procedure)
      requires state < |states| && states[state].valid && !Bound(states[state].branches, event)
      requires |states[state].branches| < BRANCHES
      modifies `states
      ensures var was := old(states);
              states == was[state := was[state].(branches := was[state].branches + [Branch(event, proc)])]
    {
      var ok := InitEventProc(state, event, proc);
      assert ok;
    }

    // ---------- the procedures, run while the received message is held ----------

    ghost predicate Busy()
      reads this
    {
      && states == TABLE && Stored(allServerData, topics)
      && currentMessage.Some? && newMessage == None
    }

    method IdleClConnected(input: Input)
      requires Busy() && free == BUFFERS - 1
      modifies this
      ensures Busy() && Abs() == Handle(old(Abs()), ClConnected, input)
    {
      state := CONNECTED;
      dataBuffer := input.text;
      log := log + [Received(input.text)];
      SendToSelf(MSG_STORE_DATA_ON_TOPIC);
    }

    method IdleClFailed(input: Input)
      requires Busy() && free == BUFFERS - 1
      modifies this
      ensures Busy() && Abs() == Handle(old(Abs()), ClFailed, input)
    {
      state := IDLE;
      log := log + [Failed];
    }

    /** The copy loop for a subscriber's topic. */
    method CopyTopic(text: CString) returns (topic: CString)
      requires StartsWith(text, "SUB")
      ensures Classify(text) == Subscribe(topic)
    {
      topic := "";
      var i := FIRST_LETTER_OF_TOPIC;
      while i < |text|
        invariant 4 <= i && (|text| >= 4 ==> i <= |text|)
        invariant topic == if i <= |text| then text[4..i] else ""
      {
        topic := topic + [text[i]];
        i := i + 1;
      }
      assert |text| >= 4 ==> text[4..|text|] == text[4..];
      assert "SUB" != "PUB" by {
        assert "SUB"[0] != "PUB"[0];
      }
    }

    method StoreDataSubPubProc(input: Input)
      requires Busy() && free == BUFFERS - 1
      modifies this
      ensures Busy() && Abs() == Handle(old(Abs()), StoreDataSubPub, input)
    {
      hide Stored, WellFormed, Published, PubTopic, PubBody;
      state := STORE_DATA;
      if StartsWith(dataBuffer, "PUB") {
        ghost var after := StoreAfter(topics, dataBuffer, input);
        allServerData, currentTopic := StorePublication(allServerData, dataBuffer, input.behind, input.stale, topics);
        topics := after;
        SendToSelf(MSG_ACK_NOTIFICATION);
      } else if StartsWith(dataBuffer, "SUB") {
        currentTopic := CopyTopic(dataBuffer);
        SendToSelf(MSG_SHARE_DATA_ON_TOPIC);
      } else if StartsWith(dataBuffer, "LIST") {
        SendToSelf(MSG_SHARE_ALL_TOPICS);
      } else {
        log := log + [Unrecognised];
      }
    }

    /** sendto, and the message that goes back to receiving unless it failed. */
    method ReplyToClient(text: string, sent: bool)
      requires Busy() && free == BUFFERS - 1
      modifies this
      ensures Busy() && Abs() == Reply(old(Abs()), text, sent)
    {
      log := log + [Replied(text, topics, sent)];
      if sent {
        SendToSelf(MSG_STAY_CONNECTED);
      }
    }

    method ShareTopicDataProc(input: Input)
      requires Busy() && free == BUFFERS - 1
      modifies this
      ensures Busy() && Abs() == Handle(old(Abs()), ShareData, input)
    {
      state := SHARE_DATA_ON_TOPIC;
      var onTopicData := ShareTopicData(allServerData, currentTopic, topics);
      ReplyToClient(onTopicData, input.sent);
    }

    method ShareAllTopicsProc(input: Input)
      requires Busy() && free == BUFFERS - 1
      modifies this
      ensures Busy() && Abs() == Handle(old(Abs()), ShareAll, input)
    {
      state := SHARE_ALL_TOPICS;
      var allTopicBuffer := ShareAllTopics(allServerData, topics);
      ReplyToClient(allTopicBuffer, input.sent);
    }

    method PublishAckProc(input: Input)
      requires Busy() && free == BUFFERS - 1
      modifies this
      ensures Busy() && Abs() == Handle(old(Abs()), PublishAck, input)
    {
      state := PUBLISH_ACK;
      ReplyToClient(ACK_MESSAGE, input.sent);
    }

    method Execute(proc: Procedure, input: Input)
      requires Busy() && free == BUFFERS - 1
      modifies this
      ensures Busy() && Abs() == Handle(old(Abs()), proc, input)
    {
      match proc
      case ClConnected => IdleClConnected(input);
      case ClFailed => IdleClFailed(input);
      case StoreDataSubPub => StoreDataSubPubProc(input);
      case ShareData => ShareTopicDataProc(input);
      case ShareAll => ShareAllTopicsProc(input);
      case PublishAck => PublishAckProc(input);
      case DoNothing =>
    }

    /** One turn of the dispatch loop; it blocks on an empty mailbox. */
    method DispatchOne(input: Input) returns (blocked: bool)
      requires Valid()
      modifies this
      ensures Valid() && blocked == (old(mailbox) == [])
      ensures !blocked ==> old(free) > 0 && Abs() == Dispatch(old(Abs()), input)
      ensures blocked ==> Abs() == old(Abs())
    {
      hide Inv, Handle, ProcOf, Stored;
      assert Inv(Abs());
      if mailbox == [] {
        return true;
      }
      DispatchReady(Abs());
      DispatchInv(Abs(), input);
      currentMessage := Some(mailbox[0]);
      mailbox := mailbox[1..];
      var proc := GetProcedure(currentMessage.value);
      Execute(proc, input);
      free := free + 1;
      currentMessage := None;
      return false;
    }

    /** ChAuto::Start. */
    method Start(how: Startup)
      requires states == TABLE && Stored(allServerData, topics) && currentMessage == None && newMessage == None
      requires Abs() == View(IDLE, [], BUFFERS, "", "", topics, [])
      modifies this
      ensures Valid() && Abs() == Started(old(topics), how)
    {
      state := IDLE;
      match how
      case NoWinsock => log := log + [NoSockets];
      case NoServerSocket => SendToSelf(MSG_CONNECTION_FAILED);
      case Serving => SendToSelf(MSG_WAIT_CL_MESSAGE);
    }
  }

  lemma DispatchReady(v: View)
    requires Inv(v) && v.mailbox != []
    ensures v.state < |TABLE| && TABLE[v.state].valid && v.free == BUFFERS - 1 && v.mailbox[1..] == []
  {
    OnTrackBound(v, v.mailbox[0]);
  }
}
