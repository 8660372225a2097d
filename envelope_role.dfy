/** The envelope-based write-image worker (ContosoAdsWorkerWriteImage): its
    messages carry a JSON AdQueue envelope instead of a bare id. It writes the
    captioned blob but never records it on the ad; it tracks progress in the
    envelope's flags instead. While HasWrittenImageURL is false it writes the
    image and deletes the message, and it re-enqueues the envelope with
    HasWrittenImageURL set only if HasThumbnailURL is false. A message whose
    HasWrittenImageURL is already true is left in the queue. */
module EnvelopeRole {
  import opened Entities
  import opened Naming
  import opened AzureStorage
  import PollLoop

  /** The caption's pixel size, and the anchor's offset from the left and bottom edges. */
  const CaptionPx := 20
  const CaptionInset := 10

  /** WriteToImage: the image copied at its own size, with the clock text drawn
      centred on the point CaptionInset in from the left and bottom edges. */
  function WriteToImage(img: Image, stamp: string): (out: Image)
    ensures out.width == img.width && out.height == img.height
    ensures out.raster.Captioned? && out.raster.background == Scaled(img.raster, img.width, img.height)
    ensures out.raster.text == stamp
    ensures out.raster.fontPx == CaptionPx && out.raster.at == Point(CaptionInset, img.height - CaptionInset)
    ensures out.raster.at.y + CaptionInset == img.height
    ensures out.raster.centered
  {
    var copy := Scaled(img.raster, img.width, img.height);
    Image(img.width, img.height, Captioned(copy, stamp, Point(CaptionInset, img.height - CaptionInset), CaptionPx, true))
  }

  /** The envelope after this worker has done its part. */
  function Advanced(env: AdQueue): (r: AdQueue)
    ensures r.hasWrittenImageURL
    ensures r.adId == env.adId && r.hasThumbnailURL == env.hasThumbnailURL
  {
    env.(hasWrittenImageURL := true)
  }

  /** BeginAddMessage, taken as completing at once: a fresh message at the tail. */
  function Enqueue(st: Cloud, p: Payload): (r: Cloud)
    ensures r.queue == st.queue + [Message(st.nextId, p, 0)] && r.nextId == st.nextId + 1
    ensures r.ads == st.ads && r.blobs == st.blobs && r.containerUri == st.containerUri
  {
    st.(queue := st.queue + [Message(st.nextId, p, 0)], nextId := st.nextId + 1)
  }

  // ---------------------------------------------------------------- handling a message

  /** ProcessCreateWrittenImage(adId): a failing Find, or a missing ad, throws an
      exception Run does not catch; otherwise the captioned blob is written. */
  function CreateWrittenImage(st: Cloud, id: int, fault: Fault, stamp: string): (r: Step)
    ensures fault == FindFault || id !in st.ads ==> r == Step(st, Fatal)
    ensures fault != FindFault && id in st.ads && (fault == BlobFault || BlobName(st.ads[id].imageURL) !in st.blobs) ==>
              r == Step(st, StorageFault)
    ensures fault != FindFault && id in st.ads && fault != BlobFault && BlobName(st.ads[id].imageURL) in st.blobs ==>
              var url := st.ads[id].imageURL;
              r == Step(st.(blobs := st.blobs[WrittenImageName(url) := WriteToImage(st.blobs[BlobName(url)], stamp)]), Done)
  {
    if fault == FindFault || id !in st.ads then Step(st, Fatal)
    else
      var blobName := BlobName(st.ads[id].imageURL);
      var writtenImageName := WrittenImageName(st.ads[id].imageURL);
      if fault == BlobFault || blobName !in st.blobs then Step(st, StorageFault)
      else Step(st.(blobs := st.blobs[writtenImageName := WriteToImage(st.blobs[blobName], stamp)]), Done)
  }

  /** ProcessQueueMessage for one delivery of msg. A body that does not
      deserialise to an AdQueue throws (not a StorageException). */
  function Handle(st: Cloud, msg: Message, fault: Fault, stamp: string): (r: Step)
    ensures r.cloud.ads == st.ads && r.cloud.containerUri == st.containerUri
    ensures msg.payload.Text? ==> r == Step(st, Fatal)
    ensures msg.payload.Envelope? && msg.payload.envelope.hasWrittenImageURL ==> r == Step(st, Done)
    ensures msg.payload.Envelope? && !msg.payload.envelope.hasWrittenImageURL ==>
              var env := msg.payload.envelope;
              var c := CreateWrittenImage(st, env.adId, fault, stamp);
              && (c.outcome != Done ==> r == c)
              && (c.outcome == Done && (fault == DeleteFault || !HasId(st.queue, msg.id)) ==> r == Step(c.cloud, StorageFault))
              && (c.outcome == Done && fault != DeleteFault && HasId(st.queue, msg.id) ==>
                    && r.outcome == Done
                    && r.cloud.blobs == c.cloud.blobs
                    && r.cloud.queue == RemoveId(st.queue, msg.id) +
                                        (if env.hasThumbnailURL then [] else [Message(st.nextId, Envelope(Advanced(env)), 0)])
                    && r.cloud.nextId == st.nextId + (if env.hasThumbnailURL then 0 else 1))
  {
    match msg.payload
    case Text(_) => Step(st, Fatal)
    case Envelope(env) =>
      if env.hasWrittenImageURL then Step(st, Done)
      else
        var c := CreateWrittenImage(st, env.adId, fault, stamp);
        if c.outcome != Done then c
        else
          var d := Delete(c.cloud, msg, fault);
          if d.outcome != Done then d
          else if !env.hasThumbnailURL then Step(Enqueue(d.cloud, Envelope(Advanced(env))), Done)
          else d
  }

  /** The envelope this worker re-enqueues is one it does nothing with. */
  lemma FollowUpIsIgnored(st: Cloud, msg: Message, fault: Fault, stamp: string, later: Cloud, laterFault: Fault, laterStamp: string)
    requires msg.payload.Envelope? && !msg.payload.envelope.hasThumbnailURL
    requires Handle(st, msg, fault, stamp).cloud.queue != st.queue
    ensures var r := Handle(st, msg, fault, stamp);
            var followUp := r.cloud.queue[|r.cloud.queue| - 1];
            && followUp.payload == Envelope(Advanced(msg.payload.envelope))
            && Handle(later, followUp.(dequeueCount := 1), laterFault, laterStamp) == Step(later, Done)
  {
  }

  /** A completed delivery leaves the queue valid, and shortens it by one exactly
      when the envelope says the thumbnail is there; otherwise the message is
      replaced by its follow-up. */
  lemma HandleKeepsValid(st: Cloud, msg: Message, fault: Fault, stamp: string)
    requires CloudValid(st)
    ensures CloudValid(Handle(st, msg, fault, stamp).cloud)
    ensures var r := Handle(st, msg, fault, stamp);
            r.outcome == Done && msg.payload.Envelope? && !msg.payload.envelope.hasWrittenImageURL ==>
              |r.cloud.queue| == |st.queue| - (if msg.payload.envelope.hasThumbnailURL then 1 else 0)
  {
    var r := Handle(st, msg, fault, stamp);
    if msg.payload.Envelope? && !msg.payload.envelope.hasWrittenImageURL {
      var env := msg.payload.envelope;
      var c := CreateWrittenImage(st, env.adId, fault, stamp);
      assert c.cloud.queue == st.queue && c.cloud.nextId == st.nextId;
      if c.outcome == Done && fault != DeleteFault && HasId(st.queue, msg.id) {
        RemoveIdKeepsValid(st.queue, st.nextId, msg.id);
        if !env.hasThumbnailURL {
          AppendFreshKeepsValid(RemoveId(st.queue, msg.id), st.nextId, Message(st.nextId, Envelope(Advanced(env)), 0));
        }
      } else {
        assert r.cloud.queue == st.queue && r.cloud.nextId == st.nextId;
      }
    } else {
      assert r.cloud.queue == st.queue && r.cloud.nextId == st.nextId;
    }
  }

  lemma AppendFreshKeepsValid(q: seq<Message>, n: nat, m: Message)
    requires QueueValid(q, n) && m.id == n
    ensures QueueValid(q + [m], n + 1)
  {
    var r := q + [m];
    forall i, j | 0 <= i < j < |r| ensures r[i].id != r[j].id {
      assert r[i] == q[i];
      if j < |q| {
        assert r[j] == q[j];
      } else {
        assert q[i] in q;
      }
    }
  }

  /** The role's handler as the poll loop sees it. */
  const Handler: PollLoop.Handler := (c, m, f, s) => Handle(c, m, f, s)

  // ---------------------------------------------------------------- the role

  class WriteImageWorker {
    const imagesQueue: MessageQueue
    const imagesBlobContainer: BlobContainer
    const db: AdsContext

    constructor (imagesQueue: MessageQueue, imagesBlobContainer: BlobContainer, db: AdsContext)
      ensures this.imagesQueue == imagesQueue && this.imagesBlobContainer == imagesBlobContainer && this.db == db
    {
      this.imagesQueue := imagesQueue;
      this.imagesBlobContainer := imagesBlobContainer;
      this.db := db;
    }

    /** The state of the three services, as the specification functions see it. */
    function State(): Cloud
      reads imagesQueue, imagesBlobContainer, db
    {
      Cloud(db.ads, imagesQueue.messages, imagesQueue.nextId, imagesBlobContainer.blobs, imagesBlobContainer.uri)
    }

    /** The while (true) loop of Run, over a finite script of passes; the
        result says whether an exception escaped. */
    method Run(script: seq<PollLoop.Iteration>) returns (status: PollLoop.Status)
      modifies imagesQueue, imagesBlobContainer, db
      ensures (State(), status) == PollLoop.Run(Handler, old(State()), None, script)
    {
      var msg: Option<Message> := None;
      var i := 0;
      while i < |script|
        invariant i <= |script|
        invariant PollLoop.Run(Handler, old(State()), None, script) == PollLoop.Run(Handler, State(), msg, script[i..])
      {
        assert script[i..][0] == script[i] && script[i..][1..] == script[i + 1..];
        status, msg := Pass(script[i], msg);
        if status == PollLoop.Halted {
          return;
        }
        i := i + 1;
      }
      status := PollLoop.Running;
    }

    /** One pass of Run's loop, with msg holding the message of the previous pass. */
    method Pass(it: PollLoop.Iteration, last: Option<Message>) returns (status: PollLoop.Status, msg: Option<Message>)
      modifies imagesQueue, imagesBlobContainer, db
      ensures PollLoop.Tick(State(), msg, status) == PollLoop.Iterate(Handler, old(State()), last, it)
    {
      msg := last;
      status := PollLoop.Running;
      var caught := false;
      if it.fetchFails {
        caught := true;
      } else {
        msg := imagesQueue.GetMessage(it.pick);
        ghost var fetched := State();
        if msg.Some? {
          var outcome := ProcessQueueMessage(msg.value, it.fault, it.stamp);
          assert Handler(fetched, msg.value, it.fault, it.stamp) == Step(State(), outcome);
          if outcome == Fatal {
            return PollLoop.Halted, msg;
          }
          caught := outcome == StorageFault;
        }
      }
      if caught {
        status := PollLoop.CatchStorageException(imagesQueue, msg);
      }
    }

    method ProcessCreateWrittenImage(adId: int, fault: Fault, stamp: string) returns (outcome: Outcome)
      modifies imagesBlobContainer
      ensures Step(State(), outcome) == CreateWrittenImage(old(State()), adId, fault, stamp)
    {
      var found := db.Find(adId, fault == FindFault);
      if !found.Found? {
        return Fatal;
      }
      var ad := found.ad;
      var blobName := BlobName(ad.imageURL);
      var writtenImageName := WrittenImageName(ad.imageURL);
      var input := imagesBlobContainer.OpenRead(blobName, fault == BlobFault);
      if input.None? {
        return StorageFault;
      }
      imagesBlobContainer.Write(writtenImageName, WriteToImage(input.value, stamp));
      outcome := Done;
    }

    method ProcessQueueMessage(msg: Message, fault: Fault, stamp: string) returns (outcome: Outcome)
      modifies imagesQueue, imagesBlobContainer
      ensures Step(State(), outcome) == Handle(old(State()), msg, fault, stamp)
    {
      if msg.payload.Text? {
        return Fatal;
      }
      var adQueue := msg.payload.envelope;
      outcome := Done;
      if !adQueue.hasWrittenImageURL {
        ghost var st := State();
        outcome := ProcessCreateWrittenImage(adQueue.adId, fault, stamp);
        if outcome != Done {
          return;
        }
        ghost var created := State();
        outcome := imagesQueue.DeleteMessage(msg, fault == DeleteFault);
        assert Step(State(), outcome) == Delete(created, msg, fault);
        if outcome != Done {
          return;
        }
        adQueue := adQueue.(hasWrittenImageURL := true);
        if !adQueue.hasThumbnailURL {
          imagesQueue.AddMessage(Envelope(adQueue));
        }
      }
    }
  }
}
