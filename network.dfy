/** The IRC connection the relay talks through (libircclient's network
    object). Only what the relay asks of it is modelled: each call is
    recorded, and `Connected` is what `IsConnected()` reports. */
module Transport {

  datatype IrcCall =
    | Send(Text: string, Target: string)
    | Raw(Line: string)
    | Open
    | Close

  class Network {
    var Connected: bool
    ghost var Calls: seq<IrcCall>

    constructor (connected: bool)
      ensures Connected == connected && Calls == []
    {
      Connected := connected;
      Calls := [];
    }

    /** `SendMessage(text, target)`: a PRIVMSG to a channel. */
    method SendMessage(text: string, target: string)
      modifies this
      ensures Connected == old(Connected)
      ensures Calls == old(Calls) + [Send(text, target)]
    {
      Calls := Calls + [Send(text, target)];
    }

    /** `TransferRaw(line)`: a raw protocol line. */
    method TransferRaw(line: string)
      modifies this
      ensures Connected == old(Connected)
      ensures Calls == old(Calls) + [Raw(line)]
    {
      Calls := Calls + [Raw(line)];
    }

    /** `Connect()`: starts connecting; the outcome arrives later as a
        callback, so `Connected` does not change here. */
    method Connect()
      modifies this
      ensures Connected == old(Connected)
      ensures Calls == old(Calls) + [Open]
    {
      Calls := Calls + [Open];
    }

    /** `Disconnect(quitMessage)`. */
    method Disconnect()
      modifies this
      ensures Connected == old(Connected)
      ensures Calls == old(Calls) + [Close]
    {
      Calls := Calls + [Close];
    }
  }
}
