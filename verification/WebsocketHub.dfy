/** The hub and its clients as objects: the methods behind the steps of RoutingModel. */
module WebsocketHub {
  import B = BrokerModel
  import M = RoutingModel
  import I = RoutingInvariant

  class Client {
    const deviceID: string
    var stage: M.Stage
    var closed: bool
    var cancels: nat
    var connCloses: nat
    var sendCloses: nat
    var input: seq<M.Input>
    var put: seq<M.Input>
    var consumed: seq<M.Input>
    var chat: M.Chat
    var answers: seq<M.Answer>
    var emitted: seq<string>
    var greeted: bool
    var output: seq<M.Line>
    var spoken: seq<M.Line>

    ghost function View(): M.Client
      reads this
    {
      M.Client(deviceID, stage, closed, cancels, connCloses, sendCloses,
               input, put, consumed, chat, answers, emitted, greeted, output, spoken)
    }

    /** What every reachable state of the pipeline says of a client. */
    ghost predicate Valid()
      reads this
    {
      I.ClientOk(View())
    }

    constructor (deviceID: string)
      ensures View() == M.NewClient(deviceID) && Valid()
    {
      this.deviceID := deviceID;
      stage, closed, cancels, connCloses, sendCloses := M.Checked, false, 0, 0, 0;
      input, put, consumed, chat, answers, emitted := [], [], [], M.Listening, [], [];
      greeted, output, spoken := false, [], [];
    }

    /** May come from any goroutine of the client or from the hub, all of which start after the
        admission check. */
    method Close()
      modifies this`closed, this`cancels, this`connCloses, this`sendCloses
      ensures View() == M.Closed(old(View())) && closed
      ensures var more := if old(closed) then 0 else 1;
              && cancels == old(cancels) + more && connCloses == old(connCloses) + more
              && sendCloses == old(sendCloses) + more
      ensures old(Valid()) && !stage.Checked? ==> Valid()
    {
      if closed {
        return;
      }
      closed := true;
      cancels := cancels + 1;
      connCloses := connCloses + 1;
      sendCloses := sendCloses + 1;
    }

    /** `sees` tells whether the select, with the context done, happens to take that case. */
    method SendInput(i: M.Input, sees: bool) returns (ok: bool)
      requires Valid()
      modifies this`input, this`put
      ensures View() == (if ok then M.Put(old(View()), i) else old(View())) && Valid()
      ensures ok <==> |old(input)| < 10 && !(closed && sees)
      ensures input == if ok then old(input) + [i] else old(input)
    {
      if closed && sees {
        return false;
      }
      if |input| < M.INPUT_CAPACITY {
        I.PutOk(View(), i);
        input, put := input + [i], put + [i];
        return true;
      }
      return false;
    }

    /** The chat loop takes an input and is answered. */
    method AnswerNext(answer: M.Answer)
      requires Valid() && input != [] && chat.Listening?
      modifies this`input, this`consumed, this`answers, this`chat
      ensures View() == M.Answered(old(View()), answer) && Valid()
      ensures old(input) == [old(input)[0]] + input && consumed == old(consumed) + [old(input)[0]]
      ensures answers == old(answers) + [answer]
      ensures chat == M.Replying(match answer
                                 case Reply(text) => text
                                 case Failure(error) => "ERROR: " + error)
    {
      I.ConsumeOk(View(), answer);
      consumed, input := consumed + [input[0]], input[1..];
      answers := answers + [answer];
      if answer.Failure? {
        chat := M.Replying("ERROR: " + answer.error);
      } else {
        chat := M.Replying(answer.text);
      }
    }

    method EmitReply()
      requires Valid() && chat.Replying? && |output| < 10
      modifies this`chat, this`emitted, this`output
      ensures View() == M.Emitted(old(View())) && Valid()
      ensures chat == M.Listening && output == old(output) + [M.Said(old(chat.reply))]
    {
      I.EmitOk(View());
      emitted, output := emitted + [chat.reply], output + [M.Said(chat.reply)];
      chat := M.Listening;
    }

    method Greet()
      requires Valid() && !greeted && |output| < 10
      modifies this`greeted, this`output
      ensures View() == M.Greeted(old(View())) && Valid()
      ensures greeted && output == old(output) + [M.Greeting]
    {
      I.GreetOk(View());
      greeted, output := true, output + [M.Greeting];
    }

    /** The response handler takes the next line to speak. */
    method Speak() returns (text: string)
      requires Valid() && output != []
      modifies this`output, this`spoken
      ensures View() == M.Spoke(old(View())) && Valid()
      ensures old(output) == [old(output)[0]] + output && spoken == old(spoken) + [old(output)[0]]
      ensures text == match old(output)[0]
                      case Greeting => "Halo Yaya, apa kabar?"
                      case Said(reply) => reply
    {
      I.SpeakOk(View());
      text := output[0].Text();
      spoken, output := spoken + [output[0]], output[1..];
    }
  }

  class Hub {
    var clients: set<Client>

    /** The map holds exactly such clients as have been registered and not unregistered. */
    ghost predicate Valid()
      reads this, clients
    {
      forall c | c in clients :: M.InHub(c.View()) && c.Valid()
    }

    constructor ()
      ensures clients == {} && Valid()
    {
      clients := {};
    }

    ghost predicate Answers(c: Client, deviceID: string)
      reads this, clients
    {
      c in clients && c.deviceID == deviceID && !c.closed
    }

    /** The register branch of the event loop. */
    method Insert(c: Client)
      requires Valid() && c.Valid() && c.stage.Handed?
      modifies this, c`stage
      ensures Valid() && c in clients && c !in old(clients)
      ensures clients == old(clients) + {c} && c.View() == old(c.View()).(stage := M.Inside)
    {
      clients := clients + {c};
      c.stage := M.Inside;
    }

    /** The unregister branch: a client in the map is taken out and closed, others are ignored. */
    method Remove(c: Client)
      requires Valid()
      modifies this, c
      ensures Valid() && (c in old(clients) ==> c.Valid() && c.closed)
      ensures clients == old(clients) - {c}
      ensures c.View() == if c in old(clients) then M.Closed(old(c.View())).(stage := M.Gone) else old(c.View())
    {
      if c in clients {
        clients := clients - {c};
        c.Close();
        c.stage := M.Gone;
      }
    }

    /** A walk over the map in whatever order it comes. */
    method GetClientByDevice(deviceID: string) returns (found: Client?)
      ensures found != null ==> Answers(found, deviceID)
      ensures found == null ==> forall c: Client :: !Answers(c, deviceID)
    {
      var left := clients;
      while left != {}
        invariant left <= clients
        invariant forall c | c in clients - left :: !Answers(c, deviceID)
        decreases |left|
      {
        var c: Client :| c in left;
        if c.deviceID == deviceID && !c.closed {
          return c;
        }
        left := left - {c};
      }
      return null;
    }

    method IsDeviceConnected(deviceID: string) returns (yes: bool)
      ensures yes <==> exists c: Client :: Answers(c, deviceID)
    {
      var found := GetClientByDevice(deviceID);
      yes := found != null;
    }

    /** One round of the listener that nothing comes between: decode, look the device up, hand
        the text over. `n` numbers the message. */
    method HandOver(payload: B.Payload, n: nat) returns (to: Client?)
      requires Valid()
      modifies clients
      ensures Valid()
      ensures to != null ==> payload.Transcription? && Answers(to, payload.deviceID)
                             && |old(to.input)| < 10 && to.input == old(to.input) + [M.Routed(n, payload.text)]
      ensures to == null && payload.Transcription? ==>
                (forall c | c in clients :: !Answers(c, payload.deviceID))
                || exists c :: Answers(c, payload.deviceID) && |c.input| >= 10
      ensures forall c | c in clients ::
                c.View() == if c == to then M.Put(old(c.View()), M.Routed(n, payload.text)) else old(c.View())
    {
      if payload.Undecodable? {
        return null;
      }
      var client := GetClientByDevice(payload.deviceID);
      if client == null {
        return null;
      }
      var ok := client.SendInput(M.Routed(n, payload.text), true);
      return if ok then client else null;
    }
  }
}
