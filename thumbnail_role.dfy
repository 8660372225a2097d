/** The thumbnail worker role (ContosoAdsWorker): for a bare-id message it
    fills the ad's ThumbnailURL with an 80-pixel thumbnail of the ad's image,
    unless that slot is filled already, and deletes the message once both
    slots of the ad are filled. */
module ThumbnailRole {
  import opened Entities
  import opened Naming
  import opened IntParse
  import opened AzureStorage
  import PollLoop

  /** The length of the longer side of every thumbnail. */
  const ThumbnailPx := 80

  // ---------------------------------------------------------------- sizing

  lemma MulLe(a: int, b: int, c: int)
    requires a <= b && 0 <= c
    ensures a * c <= b * c
  {
  }

  lemma MulCancel(a: int, b: int, c: int)
    requires 0 < c && a * c <= b * c
    ensures a <= b
  {
  }

  lemma MulCancelStrict(a: int, b: int, c: int)
    requires 0 < c && a * c < b * c
    ensures a < b
  {
  }

  /** The scaled shorter side r, ThumbnailPx * short / long with C#'s integer
      division (which, on positive operands, is the floor). */
  lemma ScaledSide(short: Dimension, long: Dimension)
    requires short <= long
    ensures var r := ThumbnailPx * short / long;
            && 0 <= r <= ThumbnailPx
            && r * long <= ThumbnailPx * short < (r + 1) * long
            && (r == ThumbnailPx <==> short == long)
  {
    var r := ThumbnailPx * short / long;
    assert (r + 1) * long == r * long + long;
    MulLe(short, long, ThumbnailPx);
    assert r * long <= ThumbnailPx * long;
    MulCancel(r, ThumbnailPx, long);
    if short == long {
      MulCancelStrict(ThumbnailPx, r + 1, long);
    } else {
      assert ThumbnailPx * short < ThumbnailPx * long;
      MulCancelStrict(r, ThumbnailPx, long);
    }
  }

  /** The width and height ConvertImageToThumbnailJPG computes for a w×h image:
      the longer side becomes ThumbnailPx and the other is scaled down in
      proportion, rounded down. A square image gives a square thumbnail. */
  function ThumbnailSizeAsWritten(w: Dimension, h: Dimension): (r: (int, int))
    ensures w > h ==> r.0 == ThumbnailPx && 0 <= r.1 < ThumbnailPx && r.1 * w <= ThumbnailPx * h < (r.1 + 1) * w
    ensures w <= h ==> r.1 == ThumbnailPx && 0 <= r.0 <= ThumbnailPx && r.0 * h <= ThumbnailPx * w < (r.0 + 1) * h
    ensures r == (ThumbnailPx, ThumbnailPx) <==> w == h
  {
    if w > h then
      ScaledSide(h, w);
      (ThumbnailPx, ThumbnailPx * h / w)
    else
      ScaledSide(w, h);
      (ThumbnailPx * w / h, ThumbnailPx)
  }

  /** The scaled side is zero exactly when the image is more than ThumbnailPx
      times longer than it is wide (or tall), and new Bitmap(width, 0) then throws. */
  lemma AsWrittenZeroSide(w: Dimension, h: Dimension)
    ensures ThumbnailSizeAsWritten(w, h).1 == 0 <==> w > ThumbnailPx * h
    ensures ThumbnailSizeAsWritten(w, h).0 == 0 <==> h > ThumbnailPx * w
  {
    var r := ThumbnailSizeAsWritten(w, h);
    if w > h && r.1 >= 1 {
      MulLe(1, r.1, w);
    }
    if w <= h && r.0 >= 1 {
      MulLe(1, r.0, h);
    }
  }

  /** A 1000×10 banner is sized 80×0, which no bitmap can have. */
  lemma BannerThumbnailIsEmpty()
    ensures ThumbnailSizeAsWritten(1000, 10) == (80, 0)
  {
  }

  /** The thumbnail size with the scaled side kept at one pixel at least: the
      longer side is ThumbnailPx, and the result agrees with the computation as
      written wherever that gives a size a bitmap can have. */
  function ThumbnailSize(w: Dimension, h: Dimension): (r: (Dimension, Dimension))
    ensures w > h ==> r.0 == ThumbnailPx && r.1 < ThumbnailPx
    ensures w <= h ==> r.1 == ThumbnailPx && r.0 <= ThumbnailPx
    ensures ThumbnailSizeAsWritten(w, h).0 > 0 && ThumbnailSizeAsWritten(w, h).1 > 0 ==>
              (r.0, r.1) == ThumbnailSizeAsWritten(w, h)
    ensures w > ThumbnailPx * h ==> r.1 == 1
    ensures h > ThumbnailPx * w ==> r.0 == 1
  {
    AsWrittenZeroSide(w, h);
    var (tw, th) := ThumbnailSizeAsWritten(w, h);
    (if tw < 1 then 1 else tw, if th < 1 then 1 else th)
  }

  lemma ThumbnailExamples()
    ensures ThumbnailSize(100, 50) == (80, 40)
    ensures ThumbnailSize(50, 100) == (40, 80)
    ensures ThumbnailSize(64, 64) == (80, 80)
  {
  }

  /** Neither side of the image is more than ThumbnailPx times the other, so
      both sides of the computed thumbnail size are at least one pixel. */
  predicate Thumbnailable(img: Image)
  {
    img.width <= ThumbnailPx * img.height && img.height <= ThumbnailPx * img.width
  }

  /** Thumbnailable is exactly the condition under which the size computed as
      written has no zero side, so that new Bitmap accepts it. */
  lemma ThumbnailableExactlyWhenBitmap(img: Image)
    ensures Thumbnailable(img) <==> ThumbnailSizeAsWritten(img.width, img.height).0 > 0
                                    && ThumbnailSizeAsWritten(img.width, img.height).1 > 0
  {
    AsWrittenZeroSide(img.width, img.height);
  }

  /** ConvertImageToThumbnailJPG: the image drawn into a new bitmap of the size
      computed as written. For an image that is not Thumbnailable that size has
      a zero side, and new Bitmap throws an ArgumentException (None). Wherever
      it does not throw, the thumbnail has the intended ThumbnailSize. */
  function ConvertImageToThumbnailJPG(img: Image): (r: Option<Image>)
    ensures r.None? <==> !Thumbnailable(img)
    ensures r.Some? ==> (r.value.width, r.value.height) == ThumbnailSizeAsWritten(img.width, img.height)
    ensures r.Some? ==> (r.value.width, r.value.height) == ThumbnailSize(img.width, img.height)
    ensures r.Some? ==> r.value.raster == Scaled(img.raster, r.value.width, r.value.height)
  {
    AsWrittenZeroSide(img.width, img.height);
    var (w, h) := ThumbnailSizeAsWritten(img.width, img.height);
    if w == 0 || h == 0 then None
    else Some(Image(w, h, Scaled(img.raster, w, h)))
  }

  // ---------------------------------------------------------------- handling a message

  /** ProcessCreateThumbnailImage, entered only for an ad whose ThumbnailURL is
      empty: write the thumbnail blob, record its URI on the ad, and delete the
      message if the written image is there too. An image that is not
      Thumbnailable makes the conversion throw before anything is recorded. */
  function CreateThumbnailImage(st: Cloud, msg: Message, id: int, fault: Fault): (r: Step)
    requires id in st.ads && !Filled(st.ads[id], Thumbnail)
    ensures fault == BlobFault || BlobName(st.ads[id].imageURL) !in st.blobs ==> r == Step(st, StorageFault)
    ensures (fault != BlobFault && BlobName(st.ads[id].imageURL) in st.blobs &&
             !Thumbnailable(st.blobs[BlobName(st.ads[id].imageURL)])) ==> r == Step(st, Fatal)
    ensures (fault != BlobFault && BlobName(st.ads[id].imageURL) in st.blobs &&
             Thumbnailable(st.blobs[BlobName(st.ads[id].imageURL)])) ==>
              var ad := st.ads[id];
              var name := ThumbnailName(ad.imageURL);
              var thumb := ConvertImageToThumbnailJPG(st.blobs[BlobName(ad.imageURL)]).value;
              var written := st.(blobs := st.blobs[name := thumb]);
              var saved := written.(ads := st.ads[id := ad.(thumbnailURL := Some(BlobUri(st.containerUri, name)))]);
              && (fault == SaveFault ==> r == Step(written, Fatal))
              && (fault != SaveFault && Filled(ad, WrittenImage) ==> OnlyDeletes(saved, r, msg, fault))
              && (fault != SaveFault && !Filled(ad, WrittenImage) ==> r == Step(saved, Done))
  {
    var ad := st.ads[id];
    var blobName := BlobName(ad.imageURL);
    var thumbnailName := ThumbnailName(ad.imageURL);
    if fault == BlobFault || blobName !in st.blobs then Step(st, StorageFault)
    else
      match ConvertImageToThumbnailJPG(st.blobs[blobName])
      case None => Step(st, Fatal)
      case Some(thumb) =>
        var written := st.(blobs := st.blobs[thumbnailName := thumb]);
        if fault == SaveFault then Step(written, Fatal)
        else
          var updated := ad.(thumbnailURL := Some(BlobUri(st.containerUri, thumbnailName)));
          var saved := written.(ads := st.ads[id := updated]);
          assert Filled(updated, Thumbnail);
          if !IsNullOrEmpty(updated.writtenImageURL) && !IsNullOrEmpty(updated.thumbnailURL) then
            Delete(saved, msg, fault)
          else
            Step(saved, Done)
  }

  /** ProcessQueueMessage for one delivery of msg. */
  function Handle(st: Cloud, msg: Message, fault: Fault): (r: Step)
    ensures BareId(msg.payload).None? ==> r == Step(st, Fatal)
    ensures BareId(msg.payload).Some? && fault == FindFault ==> r == Step(st, Fatal)
    ensures BareId(msg.payload).Some? && fault != FindFault && BareId(msg.payload).value !in st.ads ==>
              OnlyDeletes(st, r, msg, fault)
    ensures BareId(msg.payload).Some? && fault != FindFault && BareId(msg.payload).value in st.ads ==>
              var ad := st.ads[BareId(msg.payload).value];
              && (Filled(ad, Thumbnail) && Filled(ad, WrittenImage) ==> OnlyDeletes(st, r, msg, fault))
              && (Filled(ad, Thumbnail) && !Filled(ad, WrittenImage) ==> r == Step(st, Done))
              && (!Filled(ad, Thumbnail) ==> r == CreateThumbnailImage(st, msg, BareId(msg.payload).value, fault))
  {
    match BareId(msg.payload)
    case None => Step(st, Fatal)
    case Some(id) =>
      if fault == FindFault then Step(st, Fatal)
      else if id !in st.ads then Delete(st, msg, fault)
      else if IsNullOrEmpty(st.ads[id].thumbnailURL) then CreateThumbnailImage(st, msg, id, fault)
      else if !IsNullOrEmpty(st.ads[id].writtenImageURL) then Delete(st, msg, fault)
      else Step(st, Done)
  }

  /** A delivery for an ad still without a thumbnail whose image is more than
      ThumbnailPx times longer than it is wide (or tall) throws out of
      ProcessQueueMessage: nothing changes, and Run ends. */
  lemma BannerDeliveryIsFatal(st: Cloud, msg: Message, fault: Fault)
    requires fault != FindFault && fault != BlobFault
    requires BareId(msg.payload).Some? && BareId(msg.payload).value in st.ads
    requires var ad := st.ads[BareId(msg.payload).value];
             (&& !Filled(ad, Thumbnail)
              && BlobName(ad.imageURL) in st.blobs
              && (st.blobs[BlobName(ad.imageURL)].width > ThumbnailPx * st.blobs[BlobName(ad.imageURL)].height
                  || st.blobs[BlobName(ad.imageURL)].height > ThumbnailPx * st.blobs[BlobName(ad.imageURL)].width))
    ensures Handle(st, msg, fault) == Step(st, Fatal)
  {
    var id := BareId(msg.payload).value;
    assert !Thumbnailable(st.blobs[BlobName(st.ads[id].imageURL)]);
    assert Handle(st, msg, fault) == CreateThumbnailImage(st, msg, id, fault);
  }

  /** What one handling by the thumbnail role may change: it adds blobs, fills the
      ThumbnailURL of the ad it handles, and deletes the message it handles. */
  predicate ThumbnailStepKeeps(st: Cloud, r: Cloud, msg: Message)
  {
    && r.containerUri == st.containerUri && r.nextId == st.nextId
    && AdsKept(st, r)
    && (forall i :: i in st.ads ==> r.ads[i].writtenImageURL == st.ads[i].writtenImageURL)
    && st.blobs.Keys <= r.blobs.Keys
    && QueueUntouchedOrDeleted(st, r, msg)
  }

  lemma CreateThumbnailImageKeeps(st: Cloud, msg: Message, id: int, fault: Fault)
    requires id in st.ads && !Filled(st.ads[id], Thumbnail)
    ensures var r := CreateThumbnailImage(st, msg, id, fault);
            && ThumbnailStepKeeps(st, r.cloud, msg)
            && (r.cloud.queue != st.queue ==> Complete(r.cloud.ads[id]))
  {
    var r := CreateThumbnailImage(st, msg, id, fault);
    if && fault != BlobFault && BlobName(st.ads[id].imageURL) in st.blobs
       && Thumbnailable(st.blobs[BlobName(st.ads[id].imageURL)]) && fault != SaveFault {
      var ad := st.ads[id];
      var updated := r.cloud.ads[id];
      assert updated == ad.(thumbnailURL := Some(BlobUri(st.containerUri, ThumbnailName(ad.imageURL))));
      assert Filled(updated, Thumbnail);
      assert Keeps(ad, updated);
      if r.cloud.queue != st.queue {
        assert Filled(updated, WrittenImage);
      }
    }
  }

  /** Every handling keeps ThumbnailStepKeeps, and a message leaves the queue
      only when its ad is gone or has both images. */
  lemma HandleKeeps(st: Cloud, msg: Message, fault: Fault)
    ensures var r := Handle(st, msg, fault);
            && ThumbnailStepKeeps(st, r.cloud, msg)
            && (r.cloud.queue != st.queue ==>
                  BareId(msg.payload).Some? &&
                  (BareId(msg.payload).value !in st.ads || Complete(r.cloud.ads[BareId(msg.payload).value])))
  {
    var r := Handle(st, msg, fault);
    match BareId(msg.payload)
    case None =>
      OnlyQueueKeeps(st, r.cloud, msg);
    case Some(id) =>
      if fault != FindFault && id in st.ads && !Filled(st.ads[id], Thumbnail) {
        CreateThumbnailImageKeeps(st, msg, id, fault);
      } else {
        assert r.cloud == st.(queue := r.cloud.queue) && QueueUntouchedOrDeleted(st, r.cloud, msg);
        OnlyQueueKeeps(st, r.cloud, msg);
        if fault != FindFault && id in st.ads && r.cloud.queue != st.queue {
          assert Filled(st.ads[id], WrittenImage);
          BothFilledComplete(st.ads[id]);
        }
      }
  }

  /** A handling that only deletes its message, or changes nothing, keeps ThumbnailStepKeeps. */
  lemma OnlyQueueKeeps(st: Cloud, r: Cloud, msg: Message)
    requires r == st.(queue := r.queue) && QueueUntouchedOrDeleted(st, r, msg)
    ensures ThumbnailStepKeeps(st, r, msg)
  {
    forall i | i in st.ads ensures Keeps(st.ads[i], r.ads[i]) {
    }
  }

  /** A delivery whose SaveChanges failed leaves the thumbnail blob written and
      the ad unchanged; handling the message again then does exactly what a
      first delivery without that failure does (the blob is rewritten with the
      same content), unless the retry throws before reaching the blob. */
  lemma RetryAfterFailedSave(st: Cloud, msg: Message, fault: Fault)
    requires fault != FindFault && fault != BlobFault
    requires BareId(msg.payload).Some? && BareId(msg.payload).value in st.ads
    requires !Filled(st.ads[BareId(msg.payload).value], Thumbnail)
    ensures Handle(Handle(st, msg, SaveFault).cloud, msg, fault) == Handle(st, msg, fault)
  {
    var id := BareId(msg.payload).value;
    var ad := st.ads[id];
    var input := BlobName(ad.imageURL);
    HandleCreates(st, msg, SaveFault);
    if input in st.blobs && Thumbnailable(st.blobs[input]) {
      var name := ThumbnailName(ad.imageURL);
      var thumb := ConvertImageToThumbnailJPG(st.blobs[input]).value;
      var w := st.(blobs := st.blobs[name := thumb]);
      assert CreateThumbnailImage(st, msg, id, SaveFault) == Step(w, Fatal);
      OutputIsNotInput(ad.imageURL);
      assert w.blobs[input] == st.blobs[input];
      assert w.blobs[name := thumb] == w.blobs;
      HandleCreates(w, msg, fault);
      HandleCreates(st, msg, fault);
      RewriteGivesSameStep(st, w, msg, id, fault);
    } else {
      assert CreateThumbnailImage(st, msg, id, SaveFault).cloud == st;
    }
  }

  /** A delivery for an ad without a thumbnail, whose Find succeeds, goes to ProcessCreateThumbnailImage. */
  lemma HandleCreates(st: Cloud, msg: Message, fault: Fault)
    requires fault != FindFault && BareId(msg.payload).Some? && BareId(msg.payload).value in st.ads
    requires !Filled(st.ads[BareId(msg.payload).value], Thumbnail)
    ensures Handle(st, msg, fault) == CreateThumbnailImage(st, msg, BareId(msg.payload).value, fault)
  {
  }

  /** CreateThumbnailImage depends on the blobs only through the image it reads
      and the state just after the thumbnail is written. */
  lemma RewriteGivesSameStep(st: Cloud, w: Cloud, msg: Message, id: int, fault: Fault)
    requires id in st.ads && !Filled(st.ads[id], Thumbnail) && fault != BlobFault
    requires w == st.(blobs := w.blobs)
    requires BlobName(st.ads[id].imageURL) in st.blobs && BlobName(st.ads[id].imageURL) in w.blobs
    requires w.blobs[BlobName(st.ads[id].imageURL)] == st.blobs[BlobName(st.ads[id].imageURL)]
    requires Thumbnailable(st.blobs[BlobName(st.ads[id].imageURL)])
    requires var url := st.ads[id].imageURL;
             (w.blobs[ThumbnailName(url) := ConvertImageToThumbnailJPG(w.blobs[BlobName(url)]).value]
              == st.blobs[ThumbnailName(url) := ConvertImageToThumbnailJPG(st.blobs[BlobName(url)]).value])
    ensures CreateThumbnailImage(w, msg, id, fault) == CreateThumbnailImage(st, msg, id, fault)
  {
  }

  /** The role's handler as the poll loop sees it; the clock plays no part. */
  const Handler: PollLoop.Handler := (c, m, f, s) => Handle(c, m, f)

  // ---------------------------------------------------------------- the role

  class WorkerRole {
    const imagesQueue: MessageQueue
    const imagesBlobContainer: BlobContainer
    const db: AdsContext

    constructor (imagesQueue: MessageQueue, imagesBlobContainer: BlobContainer, db: AdsContext)
      ensures this.imagesQueue == imagesQueue && this.imagesBlobContainer == imagesBlobContainer && this.db == db
    {
      this.imagesQueue := imagesQueue;
      this.imagesBlobContainer := imagesBlobContainer;
      this.db := db;
    }

    /** The state of the three services, as the specification functions see it. */
    function State(): Cloud
      reads imagesQueue, imagesBlobContainer, db
    {
      Cloud(db.ads, imagesQueue.messages, imagesQueue.nextId, imagesBlobContainer.blobs, imagesBlobContainer.uri)
    }

    /** The while (true) loop of Run, over a finite script of passes; the
        result says whether an exception escaped. */
    method Run(script: seq<PollLoop.Iteration>) returns (status: PollLoop.Status)
      modifies imagesQueue, imagesBlobContainer, db
      ensures (State(), status) == PollLoop.Run(Handler, old(State()), None, script)
    {
      var msg: Option<Message> := None;
      var i := 0;
      while i < |script|
        invariant i <= |script|
        invariant PollLoop.Run(Handler, old(State()), None, script) == PollLoop.Run(Handler, State(), msg, script[i..])
      {
        assert script[i..][0] == script[i] && script[i..][1..] == script[i + 1..];
        status, msg := Pass(script[i], msg);
        if status == PollLoop.Halted {
          return;
        }
        i := i + 1;
      }
      status := PollLoop.Running;
    }

    /** One pass of Run's loop, with msg holding the message of the previous pass. */
    method Pass(it: PollLoop.Iteration, last: Option<Message>) returns (status: PollLoop.Status, msg: Option<Message>)
      modifies imagesQueue, imagesBlobContainer, db
      ensures PollLoop.Tick(State(), msg, status) == PollLoop.Iterate(Handler, old(State()), last, it)
    {
      msg := last;
      status := PollLoop.Running;
      var caught := false;
      if it.fetchFails {
        caught := true;
      } else {
        msg := imagesQueue.GetMessage(it.pick);
        ghost var fetched := State();
        if msg.Some? {
          var outcome := ProcessQueueMessage(msg.value, it.fault);
          assert Handler(fetched, msg.value, it.fault, it.stamp) == Step(State(), outcome);
          if outcome == Fatal {
            return PollLoop.Halted, msg;
          }
          caught := outcome == StorageFault;
        }
      }
      if caught {
        status := PollLoop.CatchStorageException(imagesQueue, msg);
      }
    }

    method ProcessCreateThumbnailImage(msg: Message, adId: int, ad: Ad, fault: Fault) returns (outcome: Outcome)
      requires adId in db.ads && db.ads[adId] == ad && !Filled(ad, Thumbnail)
      modifies imagesQueue, imagesBlobContainer, db
      ensures Step(State(), outcome) == CreateThumbnailImage(old(State()), msg, adId, fault)
    {
      if !CheckValidInQueue(ad) {
        // the early DeleteMessage: never reached, as the caller enters with an empty ThumbnailURL
        assert false;
      }
      ghost var st := State();
      var blobName := BlobName(ad.imageURL);
      var thumbnailName := ThumbnailName(ad.imageURL);
      var input := imagesBlobContainer.OpenRead(blobName, fault == BlobFault);
      if input.None? {
        assert CreateThumbnailImage(st, msg, adId, fault) == Step(st, StorageFault);
        return StorageFault;
      }
      var thumb := ConvertImageToThumbnailJPG(input.value);
      if thumb.None? {
        // new Bitmap(width, 0) throws an ArgumentException
        assert CreateThumbnailImage(st, msg, adId, fault) == Step(st, Fatal);
        return Fatal;
      }
      imagesBlobContainer.Write(thumbnailName, thumb.value);
      ghost var written := st.(blobs := st.blobs[thumbnailName := thumb.value]);
      assert State() == written;
      var updated := ad.(thumbnailURL := Some(BlobUri(imagesBlobContainer.uri, thumbnailName)));
      outcome := db.SaveChanges(adId, updated, fault == SaveFault);
      if outcome == Fatal {
        assert CreateThumbnailImage(st, msg, adId, fault) == Step(written, Fatal);
        assert State() == written;
        return;
      }
      ghost var saved := written.(ads := st.ads[adId := updated]);
      assert State() == saved;
      if !IsNullOrEmpty(updated.writtenImageURL) && !IsNullOrEmpty(updated.thumbnailURL) {
        outcome := imagesQueue.DeleteMessage(msg, fault == DeleteFault);
        assert Step(State(), outcome) == Delete(saved, msg, fault) == CreateThumbnailImage(st, msg, adId, fault);
      } else {
        assert CreateThumbnailImage(st, msg, adId, fault) == Step(saved, Done);
      }
    }

    method ProcessQueueMessage(msg: Message, fault: Fault) returns (outcome: Outcome)
      modifies imagesQueue, imagesBlobContainer, db
      ensures Step(State(), outcome) == Handle(old(State()), msg, fault)
    {
      var parsed := BareId(msg.payload);
      if parsed.None? {
        return Fatal;
      }
      var adId := parsed.value;
      ghost var st := State();
      var found := db.Find(adId, fault == FindFault);
      if found.Failed? {
        assert Handle(st, msg, fault) == Step(st, Fatal);
        outcome := Fatal;
      } else if found.Missing? {
        assert Handle(st, msg, fault) == Delete(st, msg, fault);
        outcome := imagesQueue.DeleteMessage(msg, fault == DeleteFault);
      } else if IsNullOrEmpty(found.ad.thumbnailURL) {
        assert Handle(st, msg, fault) == CreateThumbnailImage(st, msg, adId, fault);
        outcome := ProcessCreateThumbnailImage(msg, adId, found.ad, fault);
      } else if !IsNullOrEmpty(found.ad.writtenImageURL) {
        assert Handle(st, msg, fault) == Delete(st, msg, fault);
        outcome := imagesQueue.DeleteMessage(msg, fault == DeleteFault);
      } else {
        assert Handle(st, msg, fault) == Step(st, Done);
        outcome := Done;
      }
    }
  }
}
