/** What a host does that other hosts can notice, in the order it does it. */
module Effects {
  import opened Basics

  datatype Effect =
    | Listening(protocol: Text)                      // a stream handler is registered
    | Silent(protocol: Text)                         // and removed
    | Called(id: Text, target: Text, answered: bool) // one attempt to call a peer
    | Started                                        // the engine of a session is started

  /** The log of one host; everything that has an effect on others appends to it. */
  class Log {
    var effects: seq<Effect>

    constructor ()
      ensures effects == []
    {
      effects := [];
    }

    method Add(e: Effect)
      modifies this
      ensures effects == old(effects) + [e]
    {
      effects := effects + [e];
    }
  }
}
