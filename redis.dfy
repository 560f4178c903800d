/**
 * The Redis server as the library sees it: string keys holding expiry
 * timestamps, the log of messages published on channels, and the fate of
 * the connection's upcoming round trips. Each command is one atomic step and
 * one round trip; a round trip whose fate is an error answers with that
 * error and changes nothing. Once the given fates are used up, round trips
 * succeed.
 */
module Redis {
  import opened Js

  datatype Message = Message(channel: string, payload: string)

  /** The server's state, as a value. */
  datatype Server = Server(data: map<string, int>, published: seq<Message>, link: seq<Option<string>>)

  /** The error object a failed round trip hands to its callback, carrying the server's message. */
  function StoreError(message: string): Value {
    Obj(map["message" := Str(message)])
  }

  /** The fate of the next round trip: the message of the error it fails with, or `None`. */
  function Fate(link: seq<Option<string>>): Option<string> {
    if |link| == 0 then None else link[0]
  }

  /** The fates left after one round trip. */
  function Rest(link: seq<Option<string>>): seq<Option<string>> {
    if |link| == 0 then [] else link[1..]
  }

  /** The next `n` round trips all succeed. */
  predicate Healthy(link: seq<Option<string>>, n: nat) {
    forall i :: 0 <= i < n && i < |link| ==> link[i].None?
  }

  /** `Number(x)` of a reply that may be `null` (a missing key): `Number(null)` is 0. */
  function Number(v: Option<int>): int {
    if v.Some? then v.value else 0
  }

  /** The reply of `GET key` against `data`. */
  function Lookup(data: map<string, int>, key: string): Option<int> {
    if key in data then Some(data[key]) else None
  }

  /** What another client did to a key between two commands of this client. */
  datatype Interference = Quiet | Overwritten(value: int) | Deleted

  function Interfered(data: map<string, int>, key: string, other: Interference): map<string, int> {
    match other
    case Quiet => data
    case Overwritten(v) => data[key := v]
    case Deleted => data - {key}
  }

  class Store {
    var data: map<string, int>
    var published: seq<Message>
    var link: seq<Option<string>>

    function State(): Server
      reads this
    {
      Server(data, published, link)
    }

    constructor(data: map<string, int>, link: seq<Option<string>>)
      ensures State() == Server(data, [], link)
    {
      this.data := data;
      this.published := [];
      this.link := link;
    }

    /** Sends one command: consumes the fate of its round trip. */
    method RoundTrip() returns (fault: Option<string>)
      modifies this`link
      ensures fault == Fate(old(link)) && link == Rest(old(link))
    {
      fault := Fate(link);
      link := Rest(link);
    }

    /** SETNX: create `key` with `value` unless it exists; reports whether it created it. */
    method SetNx(key: string, value: int) returns (r: Result<bool>)
      modifies this`data, this`link
      ensures link == Rest(old(link))
      ensures Fate(old(link)).Some? ==> r == Fail(StoreError(Fate(old(link)).value)) && data == old(data)
      ensures Fate(old(link)).None? ==> r == Ok(key !in old(data))
      ensures Fate(old(link)).None? ==> data == if key in old(data) then old(data) else old(data)[key := value]
    {
      var fault := RoundTrip();
      if fault.Some? {
        return Fail(StoreError(fault.value));
      }
      if key in data {
        r := Ok(false);
      } else {
        data := data[key := value];
        r := Ok(true);
      }
    }

    /** GET: the stored value, or `null`. */
    method Get(key: string) returns (r: Result<Option<int>>)
      modifies this`link
      ensures link == Rest(old(link))
      ensures Fate(old(link)).Some? ==> r == Fail(StoreError(Fate(old(link)).value))
      ensures Fate(old(link)).None? ==> r.Ok? && (r.value.Some? <==> key in data)
      ensures Fate(old(link)).None? && key in data ==> r.value.value == data[key]
    {
      var fault := RoundTrip();
      if fault.Some? {
        return Fail(StoreError(fault.value));
      }
      r := Ok(Lookup(data, key));
    }

    /** GETSET: store `value` at `key` and reply with what was there before (or `null`). */
    method GetSet(key: string, value: int) returns (r: Result<Option<int>>)
      modifies this`data, this`link
      ensures link == Rest(old(link))
      ensures Fate(old(link)).Some? ==> r == Fail(StoreError(Fate(old(link)).value)) && data == old(data)
      ensures Fate(old(link)).None? ==> r == Ok(Lookup(old(data), key)) && data == old(data)[key := value]
    {
      var fault := RoundTrip();
      if fault.Some? {
        return Fail(StoreError(fault.value));
      }
      r := Ok(Lookup(data, key));
      data := data[key := value];
    }

    /** MULTI; DEL key; PUBLISH channel payload; EXEC: both effects as one unit, one round trip. */
    method DelAndPublish(key: string, channel: string, payload: string) returns (r: Result<()>)
      modifies this
      ensures link == Rest(old(link))
      ensures Fate(old(link)).Some? ==> r == Fail(StoreError(Fate(old(link)).value))
      ensures Fate(old(link)).Some? ==> data == old(data) && published == old(published)
      ensures Fate(old(link)).None? ==> r == Ok(())
      ensures Fate(old(link)).None? ==> data == old(data) - {key}
      ensures Fate(old(link)).None? ==> published == old(published) + [Message(channel, payload)]
    {
      var fault := RoundTrip();
      if fault.Some? {
        return Fail(StoreError(fault.value));
      }
      data := data - {key};
      published := published + [Message(channel, payload)];
      r := Ok(());
    }

    /**
     * KEYS `prefix*`: every key starting with `prefix`, each once, in an order
     * the server chooses.
     */
    method KeysWithPrefix(prefix: string) returns (r: Result<seq<string>>)
      modifies this`link
      ensures link == Rest(old(link))
      ensures Fate(old(link)).Some? ==> r == Fail(StoreError(Fate(old(link)).value))
      ensures Fate(old(link)).None? ==> r.Ok?
      ensures r.Ok? ==> forall k :: k in r.value <==> k in data && prefix <= k
      ensures r.Ok? ==> forall i, j :: 0 <= i < j < |r.value| ==> r.value[i] != r.value[j]
    {
      var fault := RoundTrip();
      if fault.Some? {
        return Fail(StoreError(fault.value));
      }
      var pending := set k | k in data && prefix <= k;
      var found := [];
      while pending != {}
        invariant forall k :: k in found || k in pending <==> k in data && prefix <= k
        invariant forall k :: k in found ==> k !in pending
        invariant forall i, j :: 0 <= i < j < |found| ==> found[i] != found[j]
        decreases pending
      {
        var k :| k in pending;
        found := found + [k];
        pending := pending - {k};
      }
      r := Ok(found);
    }

    /** MGET: the value of each key, in the order asked, `null` for a missing key. */
    method MGet(keys: seq<string>) returns (r: Result<seq<Option<int>>>)
      modifies this`link
      ensures link == Rest(old(link))
      ensures Fate(old(link)).Some? ==> r == Fail(StoreError(Fate(old(link)).value))
      ensures Fate(old(link)).None? ==> r.Ok? && |r.value| == |keys|
      ensures r.Ok? ==> forall i :: 0 <= i < |keys| ==> r.value[i] == Lookup(data, keys[i])
    {
      var fault := RoundTrip();
      if fault.Some? {
        return Fail(StoreError(fault.value));
      }
      var snapshot := data;
      r := Ok(seq(|keys|, i requires 0 <= i < |keys| => Lookup(snapshot, keys[i])));
    }

    /** DEL: remove every key listed. */
    method Del(keys: seq<string>) returns (r: Result<()>)
      modifies this`data, this`link
      ensures link == Rest(old(link))
      ensures Fate(old(link)).Some? ==> r == Fail(StoreError(Fate(old(link)).value)) && data == old(data)
      ensures Fate(old(link)).None? ==> r == Ok(()) && data == old(data) - (set k | k in keys)
    {
      var fault := RoundTrip();
      if fault.Some? {
        return Fail(StoreError(fault.value));
      }
      data := data - (set k | k in keys);
      r := Ok(());
    }

    /**
     * A command of another client reaching the server between two commands
     * of this one; only the key this client is working on is concerned.
     */
    method Interleave(key: string, other: Interference)
      modifies this`data
      ensures data == Interfered(old(data), key, other)
    {
      data := Interfered(data, key, other);
    }
  }
}
