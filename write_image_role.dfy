/** The written-image worker role (WorkerWriteImage): the mirror of the
    thumbnail role for the WrittenImageURL slot. For a bare-id message it fills
    that slot with a copy of the ad's image captioned with the time, unless the
    slot is filled already, and deletes the message once both slots are filled. */
module WriteImageRole {
  import opened Entities
  import opened Naming
  import opened IntParse
  import opened AzureStorage
  import PollLoop

  /** The caption's pixel size, and its distance from the bottom edge. */
  const CaptionPx := 40

  /** What follows the clock text in the caption. */
  const Signature := " Son Hoang"

  /** WriteToImage: the image copied at its own size, with the caption
      stamp + Signature drawn left-aligned CaptionPx above the bottom edge. */
  function WriteToImage(img: Image, stamp: string): (out: Image)
    ensures out.width == img.width && out.height == img.height
    ensures out.raster.Captioned? && out.raster.background == Scaled(img.raster, img.width, img.height)
    ensures out.raster.text == stamp + Signature
    ensures out.raster.fontPx == CaptionPx && out.raster.at == Point(0, img.height - CaptionPx)
    ensures out.raster.at.y + out.raster.fontPx == img.height
    ensures !out.raster.centered
  {
    var copy := Scaled(img.raster, img.width, img.height);
    Image(img.width, img.height, Captioned(copy, stamp + Signature, Point(0, img.height - CaptionPx), CaptionPx, false))
  }

  // ---------------------------------------------------------------- handling a message

  /** ProcessCreateWrittenImage, entered only for an ad whose WrittenImageURL is
      empty: write the captioned blob, record its URI on the ad, and delete the
      message if the thumbnail is there too. */
  function CreateWrittenImage(st: Cloud, msg: Message, id: int, fault: Fault, stamp: string): (r: Step)
    requires id in st.ads && !Filled(st.ads[id], WrittenImage)
    ensures fault == BlobFault || BlobName(st.ads[id].imageURL) !in st.blobs ==> r == Step(st, StorageFault)
    ensures fault != BlobFault && BlobName(st.ads[id].imageURL) in st.blobs ==>
              var ad := st.ads[id];
              var name := WrittenImageName(ad.imageURL);
              var written := st.(blobs := st.blobs[name := WriteToImage(st.blobs[BlobName(ad.imageURL)], stamp)]);
              var saved := written.(ads := st.ads[id := ad.(writtenImageURL := Some(BlobUri(st.containerUri, name)))]);
              && (fault == SaveFault ==> r == Step(written, Fatal))
              && (fault != SaveFault && Filled(ad, Thumbnail) ==> OnlyDeletes(saved, r, msg, fault))
              && (fault != SaveFault && !Filled(ad, Thumbnail) ==> r == Step(saved, Done))
  {
    var ad := st.ads[id];
    var blobName := BlobName(ad.imageURL);
    var writtenImageName := WrittenImageName(ad.imageURL);
    if fault == BlobFault || blobName !in st.blobs then Step(st, StorageFault)
    else
      var written := st.(blobs := st.blobs[writtenImageName := WriteToImage(st.blobs[blobName], stamp)]);
      if fault == SaveFault then Step(written, Fatal)
      else
        var updated := ad.(writtenImageURL := Some(BlobUri(st.containerUri, writtenImageName)));
        var saved := written.(ads := st.ads[id := updated]);
        assert Filled(updated, WrittenImage);
        if !IsNullOrEmpty(updated.writtenImageURL) && !IsNullOrEmpty(updated.thumbnailURL) then
          Delete(saved, msg, fault)
        else
          Step(saved, Done)
  }

  /** ProcessQueueMessage for one delivery of msg, with the clock showing stamp. */
  function Handle(st: Cloud, msg: Message, fault: Fault, stamp: string): (r: Step)
    ensures BareId(msg.payload).None? ==> r == Step(st, Fatal)
    ensures BareId(msg.payload).Some? && fault == FindFault ==> r == Step(st, Fatal)
    ensures BareId(msg.payload).Some? && fault != FindFault && BareId(msg.payload).value !in st.ads ==>
              OnlyDeletes(st, r, msg, fault)
    ensures BareId(msg.payload).Some? && fault != FindFault && BareId(msg.payload).value in st.ads ==>
              var ad := st.ads[BareId(msg.payload).value];
              && (Filled(ad, WrittenImage) && Filled(ad, Thumbnail) ==> OnlyDeletes(st, r, msg, fault))
              && (Filled(ad, WrittenImage) && !Filled(ad, Thumbnail) ==> r == Step(st, Done))
              && (!Filled(ad, WrittenImage) ==> r == CreateWrittenImage(st, msg, BareId(msg.payload).value, fault, stamp))
  {
    match BareId(msg.payload)
    case None => Step(st, Fatal)
    case Some(id) =>
      if fault == FindFault then Step(st, Fatal)
      else if id !in st.ads then Delete(st, msg, fault)
      else if IsNullOrEmpty(st.ads[id].writtenImageURL) then CreateWrittenImage(st, msg, id, fault, stamp)
      else if !IsNullOrEmpty(st.ads[id].thumbnailURL) then Delete(st, msg, fault)
      else Step(st, Done)
  }

  /** What one handling by the written-image role may change: it adds blobs, fills
      the WrittenImageURL of the ad it handles, and deletes the message it handles. */
  predicate WrittenStepKeeps(st: Cloud, r: Cloud, msg: Message)
  {
    && r.containerUri == st.containerUri && r.nextId == st.nextId
    && AdsKept(st, r)
    && (forall i :: i in st.ads ==> r.ads[i].thumbnailURL == st.ads[i].thumbnailURL)
    && st.blobs.Keys <= r.blobs.Keys
    && QueueUntouchedOrDeleted(st, r, msg)
  }

  lemma CreateWrittenImageKeeps(st: Cloud, msg: Message, id: int, fault: Fault, stamp: string)
    requires id in st.ads && !Filled(st.ads[id], WrittenImage)
    ensures var r := CreateWrittenImage(st, msg, id, fault, stamp);
            && WrittenStepKeeps(st, r.cloud, msg)
            && (r.cloud.queue != st.queue ==> Complete(r.cloud.ads[id]))
  {
    var r := CreateWrittenImage(st, msg, id, fault, stamp);
    if fault != BlobFault && BlobName(st.ads[id].imageURL) in st.blobs && fault != SaveFault {
      var ad := st.ads[id];
      var updated := r.cloud.ads[id];
      assert updated == ad.(writtenImageURL := Some(BlobUri(st.containerUri, WrittenImageName(ad.imageURL))));
      assert Filled(updated, WrittenImage);
      assert Keeps(ad, updated);
      if r.cloud.queue != st.queue {
        assert Filled(updated, Thumbnail);
      }
    }
  }

  /** Every handling keeps WrittenStepKeeps, and a message leaves the queue
      only when its ad is gone or has both images. */
  lemma HandleKeeps(st: Cloud, msg: Message, fault: Fault, stamp: string)
    ensures var r := Handle(st, msg, fault, stamp);
            && WrittenStepKeeps(st, r.cloud, msg)
            && (r.cloud.queue != st.queue ==>
                  BareId(msg.payload).Some? &&
                  (BareId(msg.payload).value !in st.ads || Complete(r.cloud.ads[BareId(msg.payload).value])))
  {
    var r := Handle(st, msg, fault, stamp);
    match BareId(msg.payload)
    case None =>
      OnlyQueueKeeps(st, r.cloud, msg);
    case Some(id) =>
      if fault != FindFault && id in st.ads && !Filled(st.ads[id], WrittenImage) {
        CreateWrittenImageKeeps(st, msg, id, fault, stamp);
      } else {
        assert r.cloud == st.(queue := r.cloud.queue) && QueueUntouchedOrDeleted(st, r.cloud, msg);
        OnlyQueueKeeps(st, r.cloud, msg);
        if fault != FindFault && id in st.ads && r.cloud.queue != st.queue {
          assert Filled(st.ads[id], Thumbnail);
          BothFilledComplete(st.ads[id]);
        }
      }
  }

  /** A handling that only deletes its message, or changes nothing, keeps WrittenStepKeeps. */
  lemma OnlyQueueKeeps(st: Cloud, r: Cloud, msg: Message)
    requires r == st.(queue := r.queue) && QueueUntouchedOrDeleted(st, r, msg)
    ensures WrittenStepKeeps(st, r, msg)
  {
    forall i | i in st.ads ensures Keeps(st.ads[i], r.ads[i]) {
    }
  }

  /** After a failed SaveChanges, handling the message again does what a first
      delivery without that failure does, at the clock of the retry, unless the
      retry throws before reaching the blob. */
  lemma RetryAfterFailedSave(st: Cloud, msg: Message, fault: Fault, stamp: string, retryStamp: string)
    requires fault != FindFault && fault != BlobFault
    requires BareId(msg.payload).Some? && BareId(msg.payload).value in st.ads
    requires !Filled(st.ads[BareId(msg.payload).value], WrittenImage)
    ensures Handle(Handle(st, msg, SaveFault, stamp).cloud, msg, fault, retryStamp) == Handle(st, msg, fault, retryStamp)
  {
    var id := BareId(msg.payload).value;
    var url := st.ads[id].imageURL;
    HandleCreates(st, msg, SaveFault, stamp);
    if BlobName(url) in st.blobs {
      var w := st.(blobs := st.blobs[WrittenImageName(url) := WriteToImage(st.blobs[BlobName(url)], stamp)]);
      assert CreateWrittenImage(st, msg, id, SaveFault, stamp) == Step(w, Fatal);
      RetryOverWritten(st, w, msg, id, fault, stamp, retryStamp);
    } else {
      assert CreateWrittenImage(st, msg, id, SaveFault, stamp).cloud == st;
    }
  }

  /** A delivery to a state that differs only by a captioned blob written
      earlier does what the same delivery does without it. */
  lemma RetryOverWritten(st: Cloud, w: Cloud, msg: Message, id: int, fault: Fault, stamp: string, retryStamp: string)
    requires fault != FindFault && fault != BlobFault
    requires BareId(msg.payload) == Some(id) && id in st.ads && !Filled(st.ads[id], WrittenImage)
    requires BlobName(st.ads[id].imageURL) in st.blobs
    requires var url := st.ads[id].imageURL;
             (w == st.(blobs := st.blobs[WrittenImageName(url) := WriteToImage(st.blobs[BlobName(url)], stamp)]))
    ensures Handle(w, msg, fault, retryStamp) == Handle(st, msg, fault, retryStamp)
  {
    var url := st.ads[id].imageURL;
    var input, name := BlobName(url), WrittenImageName(url);
    OutputIsNotInput(url);
    OverwriteBlob(st.blobs, input, name, stamp, retryStamp);
    HandleCreates(w, msg, fault, retryStamp);
    HandleCreates(st, msg, fault, retryStamp);
    RewriteGivesSameStep(st, w, msg, id, fault, retryStamp);
  }

  /** Writing the captioned copy of blob input to blob name twice leaves what the second write leaves. */
  lemma OverwriteBlob(m: map<string, Image>, input: string, name: string, stamp: string, retryStamp: string)
    requires input != name && input in m
    ensures var m1 := m[name := WriteToImage(m[input], stamp)];
            && input in m1 && m1[input] == m[input]
            && m1[name := WriteToImage(m1[input], retryStamp)] == m[name := WriteToImage(m[input], retryStamp)]
  {
  }

  /** A delivery for an ad without a written image, whose Find succeeds, goes to ProcessCreateWrittenImage. */
  lemma HandleCreates(st: Cloud, msg: Message, fault: Fault, stamp: string)
    requires fault != FindFault && BareId(msg.payload).Some? && BareId(msg.payload).value in st.ads
    requires !Filled(st.ads[BareId(msg.payload).value], WrittenImage)
    ensures Handle(st, msg, fault, stamp) == CreateWrittenImage(st, msg, BareId(msg.payload).value, fault, stamp)
  {
  }

  /** CreateWrittenImage depends on the blobs only through the state just
      after the captioned image is written. */
  lemma RewriteGivesSameStep(st: Cloud, w: Cloud, msg: Message, id: int, fault: Fault, stamp: string)
    requires id in st.ads && !Filled(st.ads[id], WrittenImage) && fault != BlobFault
    requires w == st.(blobs := w.blobs)
    requires BlobName(st.ads[id].imageURL) in st.blobs && BlobName(st.ads[id].imageURL) in w.blobs
    requires var url := st.ads[id].imageURL;
             (w.blobs[WrittenImageName(url) := WriteToImage(w.blobs[BlobName(url)], stamp)]
              == st.blobs[WrittenImageName(url) := WriteToImage(st.blobs[BlobName(url)], stamp)])
    ensures CreateWrittenImage(w, msg, id, fault, stamp) == CreateWrittenImage(st, msg, id, fault, stamp)
  {
  }

  /** The role's handler as the poll loop sees it. */
  const Handler: PollLoop.Handler := (c, m, f, s) => Handle(c, m, f, s)

  // ---------------------------------------------------------------- the role

  class WorkerRole {
    const imagesQueue: MessageQueue
    const imagesBlobContainer: BlobContainer
    const db: AdsContext

    constructor (imagesQueue: MessageQueue, imagesBlobContainer: BlobContainer, db: AdsContext)
      ensures this.imagesQueue == imagesQueue && this.imagesBlobContainer == imagesBlobContainer && this.db == db
    {
      this.imagesQueue := imagesQueue;
      this.imagesBlobContainer := imagesBlobContainer;
      this.db := db;
    }

    /** The state of the three services, as the specification functions see it. */
    function State(): Cloud
      reads imagesQueue, imagesBlobContainer, db
    {
      Cloud(db.ads, imagesQueue.messages, imagesQueue.nextId, imagesBlobContainer.blobs, imagesBlobContainer.uri)
    }

    /** The while (true) loop of Run, over a finite script of passes; the
        result says whether an exception escaped. */
    method Run(script: seq<PollLoop.Iteration>) returns (status: PollLoop.Status)
      modifies imagesQueue, imagesBlobContainer, db
      ensures (State(), status) == PollLoop.Run(Handler, old(State()), None, script)
    {
      var msg: Option<Message> := None;
      var i := 0;
      while i < |script|
        invariant i <= |script|
        invariant PollLoop.Run(Handler, old(State()), None, script) == PollLoop.Run(Handler, State(), msg, script[i..])
      {
        assert script[i..][0] == script[i] && script[i..][1..] == script[i + 1..];
        status, msg := Pass(script[i], msg);
        if status == PollLoop.Halted {
          return;
        }
        i := i + 1;
      }
      status := PollLoop.Running;
    }

    /** One pass of Run's loop, with msg holding the message of the previous pass. */
    method Pass(it: PollLoop.Iteration, last: Option<Message>) returns (status: PollLoop.Status, msg: Option<Message>)
      modifies imagesQueue, imagesBlobContainer, db
      ensures PollLoop.Tick(State(), msg, status) == PollLoop.Iterate(Handler, old(State()), last, it)
    {
      msg := last;
      status := PollLoop.Running;
      var caught := false;
      if it.fetchFails {
        caught := true;
      } else {
        msg := imagesQueue.GetMessage(it.pick);
        ghost var fetched := State();
        if msg.Some? {
          var outcome := ProcessQueueMessage(msg.value, it.fault, it.stamp);
          assert Handler(fetched, msg.value, it.fault, it.stamp) == Step(State(), outcome);
          if outcome == Fatal {
            return PollLoop.Halted, msg;
          }
          caught := outcome == StorageFault;
        }
      }
      if caught {
        status := PollLoop.CatchStorageException(imagesQueue, msg);
      }
    }

    method ProcessCreateWrittenImage(msg: Message, adId: int, ad: Ad, fault: Fault, stamp: string) returns (outcome: Outcome)
      requires adId in db.ads && db.ads[adId] == ad && !Filled(ad, WrittenImage)
      modifies imagesQueue, imagesBlobContainer, db
      ensures Step(State(), outcome) == CreateWrittenImage(old(State()), msg, adId, fault, stamp)
    {
      if !CheckValidInQueue(ad) {
        // the early DeleteMessage: never reached, as the caller enters with an empty WrittenImageURL
        assert false;
      }
      ghost var st := State();
      var blobName := BlobName(ad.imageURL);
      var writtenImageName := WrittenImageName(ad.imageURL);
      var input := imagesBlobContainer.OpenRead(blobName, fault == BlobFault);
      if input.None? {
        assert CreateWrittenImage(st, msg, adId, fault, stamp) == Step(st, StorageFault);
        return StorageFault;
      }
      imagesBlobContainer.Write(writtenImageName, WriteToImage(input.value, stamp));
      ghost var written := st.(blobs := st.blobs[writtenImageName := WriteToImage(st.blobs[blobName], stamp)]);
      assert State() == written;
      var updated := ad.(writtenImageURL := Some(BlobUri(imagesBlobContainer.uri, writtenImageName)));
      outcome := db.SaveChanges(adId, updated, fault == SaveFault);
      if outcome == Fatal {
        assert CreateWrittenImage(st, msg, adId, fault, stamp) == Step(written, Fatal);
        assert State() == written;
        return;
      }
      ghost var saved := written.(ads := st.ads[adId := updated]);
      assert State() == saved;
      if !IsNullOrEmpty(updated.writtenImageURL) && !IsNullOrEmpty(updated.thumbnailURL) {
        outcome := imagesQueue.DeleteMessage(msg, fault == DeleteFault);
        assert Step(State(), outcome) == Delete(saved, msg, fault) == CreateWrittenImage(st, msg, adId, fault, stamp);
      } else {
        assert CreateWrittenImage(st, msg, adId, fault, stamp) == Step(saved, Done);
      }
    }

    method ProcessQueueMessage(msg: Message, fault: Fault, stamp: string) returns (outcome: Outcome)
      modifies imagesQueue, imagesBlobContainer, db
      ensures Step(State(), outcome) == Handle(old(State()), msg, fault, stamp)
    {
      var parsed := BareId(msg.payload);
      if parsed.None? {
        return Fatal;
      }
      var adId := parsed.value;
      var found := db.Find(adId, fault == FindFault);
      if found.Failed? {
        outcome := Fatal;
      } else if found.Missing? {
        outcome := imagesQueue.DeleteMessage(msg, fault == DeleteFault);
      } else if IsNullOrEmpty(found.ad.writtenImageURL) {
        outcome := ProcessCreateWrittenImage(msg, adId, found.ad, fault, stamp);
      } else if !IsNullOrEmpty(found.ad.thumbnailURL) {
        outcome := imagesQueue.DeleteMessage(msg, fault == DeleteFault);
      } else {
        outcome := Done;
      }
    }
  }
}
