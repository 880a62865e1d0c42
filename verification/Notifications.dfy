/** Channels and the notifier of one path. */
module Notifications {
  import opened Wrappers
  import opened Messages

  /** An unbounded channel whose receiver stays open: everything sent so far, in order. */
  class Channel {
    var log: seq<Message>
    ghost const number: nat     // which subscription it belongs to
    ghost const client: string  // whose subscription that is

    constructor (ghost number: nat, ghost client: string)
      ensures log == [] && this.number == number && this.client == client
    {
      log := [];
      this.number := number;
      this.client := client;
    }

    method Send(m: Message)
      modifies this
      ensures log == old(log) + [m]
    {
      log := log + [m];
    }
  }

  class Notification {
    var subscriptions: map<string, Channel>
    ghost const home: seq<string>  // the path it serves

    /** Every client has a channel of its own. */
    ghost predicate Valid()
      reads this
    {
      forall u :: u in subscriptions ==> subscriptions[u].client == u
    }

    constructor (ghost home: seq<string>)
      ensures subscriptions == map[] && Valid() && this.home == home
    {
      subscriptions := map[];
      this.home := home;
    }

    method Subscribe(uuid: string, ghost number: nat) returns (r: Result<Channel, NkvError>)
      modifies this
      ensures uuid in old(subscriptions) ==> r == Err(AlreadySubscribed(uuid)) && subscriptions == old(subscriptions)
      ensures uuid !in old(subscriptions) ==>
        && r.Ok? && fresh(r.value) && r.value.log == [Hello]
        && r.value.number == number && r.value.client == uuid
        && subscriptions == old(subscriptions)[uuid := r.value]
        && subscriptions.Values <= old(subscriptions).Values + {r.value}
    {
      if uuid in subscriptions {
        return Err(AlreadySubscribed(uuid));
      }
      var tx := new Channel(number, uuid);
      subscriptions := subscriptions[uuid := tx];
      tx.Send(Hello);
      r := Ok(tx);
    }

    method Unsubscribe(key: string, uuid: string)
      modifies this, if uuid in subscriptions then {subscriptions[uuid]} else {}
      ensures subscriptions == old(subscriptions) - {uuid} && subscriptions.Values <= old(subscriptions).Values
      ensures uuid in old(subscriptions) ==> old(subscriptions)[uuid].log == old(subscriptions[uuid].log) + [Close(key)]
    {
      if uuid in subscriptions {
        var tx := subscriptions[uuid];
        subscriptions := subscriptions - {uuid};
        tx.Send(Close(key));
      }
    }

    /** `send_update`, `send_close`, `send_hello`: one message to every subscriber, in the hash map's
        unspecified order. */
    method SendToAll(m: Message)
      requires Valid()
      modifies subscriptions.Values
      ensures forall c :: c in subscriptions.Values ==> c.log == old(c.log) + [m]
    {
      var todo := subscriptions.Keys;
      while todo != {}
        invariant todo <= subscriptions.Keys
        invariant forall u :: u in subscriptions ==>
          subscriptions[u].log == old(subscriptions[u].log) + (if u in todo then [] else [m])
      {
        var u :| u in todo;
        subscriptions[u].Send(m);
        todo := todo - {u};
      }
    }

    /** Drains the subscribers, closing each. */
    method UnsubscribeAll(key: string)
      requires Valid()
      modifies this, subscriptions.Values
      ensures subscriptions == map[]
      ensures forall c :: c in old(subscriptions).Values ==> c.log == old(c.log) + [Close(key)]
    {
      SendToAll(Close(key));
      subscriptions := map[];
    }

    method SendUpdateToSubscription(uuid: string, key: string, value: Bytes) returns (r: Result<(), NkvError>)
      modifies if uuid in subscriptions then {subscriptions[uuid]} else {}
      ensures r.Ok? <==> uuid in subscriptions
      ensures r.Ok? ==> subscriptions[uuid].log == old(subscriptions[uuid].log) + [Update(key, value)]
    {
      if uuid !in subscriptions {
        return Err(KeyNotFound);
      }
      subscriptions[uuid].Send(Update(key, value));
      r := Ok(());
    }
  }
}
