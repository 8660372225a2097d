/** The three storage services a worker role holds: the "images" queue
    (imagesQueue), the "images" blob container (imagesBlobContainer) and the
    Ads table of the database context (db). Each is an object whose state the
    role's calls change in place; failures of a call are injected by a flag. */
module AzureStorage {
  import opened Entities

  class MessageQueue {
    var messages: seq<Message>
    var nextId: nat

    constructor (messages: seq<Message>, nextId: nat)
      ensures this.messages == messages && this.nextId == nextId
    {
      this.messages := messages;
      this.nextId := nextId;
    }

    /** GetMessage: the message at index pick (visibility timeouts decide which
        one the service hands out; pick stands for that choice) is delivered
        once more; a pick past the end is "no message available". */
    method GetMessage(pick: nat) returns (msg: Option<Message>)
      modifies this
      ensures (messages, msg) == Fetch(old(messages), pick)
      ensures nextId == old(nextId)
    {
      if pick < |messages| {
        var m := messages[pick].(dequeueCount := messages[pick].dequeueCount + 1);
        messages := messages[pick := m];
        msg := Some(m);
      } else {
        msg := None;
      }
    }

    /** DeleteMessage: removes the message with msg's id; a message that is gone
        already, or a failing call, gives a StorageException. */
    method DeleteMessage(msg: Message, fail: bool) returns (outcome: Outcome)
      modifies this
      ensures outcome == (if !fail && HasId(old(messages), msg.id) then Done else StorageFault)
      ensures messages == (if outcome == Done then RemoveId(old(messages), msg.id) else old(messages))
      ensures nextId == old(nextId)
    {
      if !fail && exists m :: m in messages && m.id == msg.id {
        messages := RemoveId(messages, msg.id);
        outcome := Done;
      } else {
        outcome := StorageFault;
      }
    }

    /** AddMessage (BeginAddMessage, taken as completing at once): appends a
        message with a fresh id that has not been delivered yet. */
    method AddMessage(payload: Payload)
      modifies this
      ensures messages == old(messages) + [Message(old(nextId), payload, 0)]
      ensures nextId == old(nextId) + 1
    {
      messages := messages + [Message(nextId, payload, 0)];
      nextId := nextId + 1;
    }
  }

  class BlobContainer {
    const uri: string
    var blobs: map<string, Image>

    constructor (uri: string, blobs: map<string, Image>)
      ensures this.uri == uri && this.blobs == blobs
    {
      this.uri := uri;
      this.blobs := blobs;
    }

    /** OpenRead and decode: a missing blob, or a failing call, gives a StorageException (None). */
    function OpenRead(name: string, fail: bool): (img: Option<Image>)
      reads this
      ensures img.None? <==> fail || name !in blobs
      ensures img.Some? ==> img.value == blobs[name]
    {
      if fail || name !in blobs then None else Some(blobs[name])
    }

    /** OpenWrite, encode and close: the blob now holds img. */
    method Write(name: string, img: Image)
      modifies this
      ensures blobs == old(blobs)[name := img]
    {
      blobs := blobs[name := img];
    }
  }

  /** What db.Ads.Find gives: the tracked row, null, or a database exception. */
  datatype Lookup = Found(ad: Ad) | Missing | Failed

  class AdsContext {
    var ads: map<int, Ad>

    constructor (ads: map<int, Ad>)
      ensures this.ads == ads
    {
      this.ads := ads;
    }

    /** db.Ads.Find(id): the ad, or null; a failing query throws (not a StorageException). */
    function Find(id: int, fail: bool): (r: Lookup)
      reads this
      ensures r.Failed? <==> fail
      ensures r.Found? <==> !fail && id in ads
      ensures r.Found? ==> r.ad == ads[id]
    {
      if fail then Failed else if id in ads then Found(ads[id]) else Missing
    }

    /** An assignment to the tracked ad followed by SaveChanges; a failing save
        leaves the table as it was and throws (not a StorageException). */
    method SaveChanges(id: int, ad: Ad, fail: bool) returns (outcome: Outcome)
      modifies this
      ensures outcome == (if fail then Fatal else Done)
      ensures ads == (if fail then old(ads) else old(ads)[id := ad])
    {
      if fail {
        outcome := Fatal;
      } else {
        ads := ads[id := ad];
        outcome := Done;
      }
    }
  }
}
