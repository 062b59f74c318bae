/**
 * The controller's static registry of open push channels, keyed by user id
 * (BookingController.emitters). A channel stands for one SseEmitter object;
 * channels are numbered so that a fresh emitter is a number never used before.
 */
module SseEmitters {
  /** One SseEmitter. */
  type Channel = nat

  class Registry {
    var channels: map<string, Channel>
    var nextChannel: nat

    /** Every registered channel was created by an earlier connect. */
    ghost predicate Valid()
      reads this
    {
      forall u :: u in channels ==> channels[u] < nextChannel
    }

    constructor ()
      ensures Valid() && channels == map[]
    {
      channels := map[];
      nextChannel := 0;
    }

    /**
     * connect(userId): a fresh emitter replaces whatever was registered for
     * the user; every other user's entry is unchanged.
     */
    method Connect(userId: string) returns (ch: Channel)
      requires Valid()
      modifies this
      ensures Valid()
      ensures ch !in old(channels).Values
      ensures ch == old(nextChannel) && nextChannel == old(nextChannel) + 1
      ensures channels == old(channels)[userId := ch]
    {
      ch := nextChannel;
      nextChannel := nextChannel + 1;
      channels := channels[userId := ch];
    }

    /**
     * The onCompletion and onTimeout callbacks of a user's emitter, and the
     * removal after a send: the entry is removed by key, whichever emitter it
     * holds at that moment; every other user's entry is unchanged.
     */
    method Remove(userId: string)
      requires Valid()
      modifies this
      ensures Valid()
      ensures channels == old(channels) - {userId}
      ensures nextChannel == old(nextChannel)
    {
      channels := channels - {userId};
    }
  }
}
