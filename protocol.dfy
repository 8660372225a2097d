/** How the two bare-id stages cooperate on one shared "images" queue: every
    message names an ad, each stage fills its own slot of that ad, and the
    message leaves the queue once a stage finds both slots filled, whichever
    stage comes first. */
module Protocol {
  import opened Entities
  import opened Naming
  import opened IntParse
  import PollLoop
  import ThumbnailRole
  import WriteImageRole

  // ---------------------------------------------------------------- queue validity

  lemma UntouchedOrDeletedKeepsValid(st: Cloud, r: Cloud, msg: Message)
    requires CloudValid(st) && r.nextId == st.nextId && QueueUntouchedOrDeleted(st, r, msg)
    ensures CloudValid(r)
  {
    RemoveIdKeepsValid(st.queue, st.nextId, msg.id);
  }

  /** Message ids stay distinct and below the next id through a thumbnail handling. */
  lemma ThumbnailKeepsValid(st: Cloud, msg: Message, fault: Fault)
    requires CloudValid(st)
    ensures CloudValid(ThumbnailRole.Handle(st, msg, fault).cloud)
  {
    ThumbnailRole.HandleKeeps(st, msg, fault);
    UntouchedOrDeletedKeepsValid(st, ThumbnailRole.Handle(st, msg, fault).cloud, msg);
  }

  /** Message ids stay distinct and below the next id through a written-image handling. */
  lemma WrittenImageKeepsValid(st: Cloud, msg: Message, fault: Fault, stamp: string)
    requires CloudValid(st)
    ensures CloudValid(WriteImageRole.Handle(st, msg, fault, stamp).cloud)
  {
    WriteImageRole.HandleKeeps(st, msg, fault, stamp);
    UntouchedOrDeletedKeepsValid(st, WriteImageRole.Handle(st, msg, fault, stamp).cloud, msg);
  }

  // ---------------------------------------------------------------- both stages on one message

  /** The message names ad id, the ad exists, and its image is in the container
      with a shape the thumbnail stage can size (an image more than 80 times
      longer than wide is the subject of BannerHaltsRun). */
  predicate Ready(st: Cloud, msg: Message, id: int)
  {
    && BareId(msg.payload) == Some(id)
    && id in st.ads
    && BlobName(st.ads[id].imageURL) in st.blobs
    && ThumbnailRole.Thumbnailable(st.blobs[BlobName(st.ads[id].imageURL)])
  }

  /** One delivery of msg to stage k in which no storage call fails. */
  function Apply(st: Cloud, msg: Message, k: StageKind, stamp: string): Step
  {
    match k
    case Thumbnail => ThumbnailRole.Handle(st, msg, NoFault)
    case WrittenImage => WriteImageRole.Handle(st, msg, NoFault, stamp)
  }

  /** Deliveries of msg to the stages ks in turn, for as long as it is in the queue. */
  function Deliver(st: Cloud, msg: Message, ks: seq<StageKind>, stamp: string): Cloud
    decreases |ks|
  {
    if ks == [] || !HasId(st.queue, msg.id) then st
    else Deliver(Apply(st, msg, ks[0], stamp).cloud, msg, ks[1..], stamp)
  }

  /** One delivery fills the stage's own slot and no other, and deletes the
      message exactly when the ad is then complete. */
  lemma ApplyStep(st: Cloud, msg: Message, id: int, k: StageKind, stamp: string)
    requires Ready(st, msg, id) && HasId(st.queue, msg.id)
    ensures var r := Apply(st, msg, k, stamp);
            && r.outcome == Done
            && Ready(r.cloud, msg, id)
            && (forall j :: Filled(r.cloud.ads[id], j) <==> Filled(st.ads[id], j) || j == k)
            && (!HasId(r.cloud.queue, msg.id) <==> Complete(r.cloud.ads[id]))
  {
    match k
    case Thumbnail => ThumbnailStep(st, msg, id);
    case WrittenImage => WrittenImageStep(st, msg, id, stamp);
  }

  lemma ThumbnailStep(st: Cloud, msg: Message, id: int)
    requires Ready(st, msg, id) && HasId(st.queue, msg.id)
    ensures var r := ThumbnailRole.Handle(st, msg, NoFault);
            && r.outcome == Done
            && Ready(r.cloud, msg, id)
            && (forall j :: Filled(r.cloud.ads[id], j) <==> Filled(st.ads[id], j) || j == Thumbnail)
            && (!HasId(r.cloud.queue, msg.id) <==> Complete(r.cloud.ads[id]))
  {
    if Filled(st.ads[id], Thumbnail) {
      ThumbnailAlreadyFilled(st, msg, id);
    } else {
      ThumbnailDelivery(st, msg, id, "");
      ThumbnailEffectFills(st, msg, id);
    }
  }

  lemma WrittenImageStep(st: Cloud, msg: Message, id: int, stamp: string)
    requires Ready(st, msg, id) && HasId(st.queue, msg.id)
    ensures var r := WriteImageRole.Handle(st, msg, NoFault, stamp);
            && r.outcome == Done
            && Ready(r.cloud, msg, id)
            && (forall j :: Filled(r.cloud.ads[id], j) <==> Filled(st.ads[id], j) || j == WrittenImage)
            && (!HasId(r.cloud.queue, msg.id) <==> Complete(r.cloud.ads[id]))
  {
    if Filled(st.ads[id], WrittenImage) {
      WrittenImageAlreadyFilled(st, msg, id, stamp);
    } else {
      WrittenImageDelivery(st, msg, id, stamp);
      WrittenImageEffectFills(st, msg, id, stamp);
    }
  }

  /** A thumbnail delivery for an ad that has its thumbnail only deletes the
      message, and only when the written image is there too. */
  lemma ThumbnailAlreadyFilled(st: Cloud, msg: Message, id: int)
    requires Ready(st, msg, id) && HasId(st.queue, msg.id) && Filled(st.ads[id], Thumbnail)
    ensures var r := ThumbnailRole.Handle(st, msg, NoFault);
            && r.outcome == Done
            && Ready(r.cloud, msg, id)
            && (forall j :: Filled(r.cloud.ads[id], j) <==> Filled(st.ads[id], j) || j == Thumbnail)
            && (!HasId(r.cloud.queue, msg.id) <==> Complete(r.cloud.ads[id]))
  {
    var ad := st.ads[id];
    var r := ThumbnailRole.Handle(st, msg, NoFault);
    assert r.cloud == st.(queue := r.cloud.queue) && r.outcome == Done;
    assert !HasId(r.cloud.queue, msg.id) <==> Filled(ad, WrittenImage);
    FillSlot(ad, r.cloud.ads[id], Thumbnail);
  }

  /** A written-image delivery for an ad that has its written image only deletes
      the message, and only when the thumbnail is there too. */
  lemma WrittenImageAlreadyFilled(st: Cloud, msg: Message, id: int, stamp: string)
    requires Ready(st, msg, id) && HasId(st.queue, msg.id) && Filled(st.ads[id], WrittenImage)
    ensures var r := WriteImageRole.Handle(st, msg, NoFault, stamp);
            && r.outcome == Done
            && Ready(r.cloud, msg, id)
            && (forall j :: Filled(r.cloud.ads[id], j) <==> Filled(st.ads[id], j) || j == WrittenImage)
            && (!HasId(r.cloud.queue, msg.id) <==> Complete(r.cloud.ads[id]))
  {
    var ad := st.ads[id];
    var r := WriteImageRole.Handle(st, msg, NoFault, stamp);
    assert r.cloud == st.(queue := r.cloud.queue) && r.outcome == Done;
    assert !HasId(r.cloud.queue, msg.id) <==> Filled(ad, Thumbnail);
    FillSlot(ad, r.cloud.ads[id], WrittenImage);
  }

  /** The thumbnail stage's writes keep the message ready and fill only the thumbnail slot. */
  lemma ThumbnailEffectFills(st: Cloud, msg: Message, id: int)
    requires Ready(st, msg, id) && !Filled(st.ads[id], Thumbnail)
    ensures var e := ThumbnailEffect(st, id);
            && e.queue == st.queue && Ready(e, msg, id)
            && (forall j :: Filled(e.ads[id], j) <==> Filled(st.ads[id], j) || j == Thumbnail)
            && (Complete(e.ads[id]) <==> Filled(st.ads[id], WrittenImage))
  {
    var e := ThumbnailEffect(st, id);
    var input := BlobName(st.ads[id].imageURL);
    OutputIsNotInput(st.ads[id].imageURL);
    assert e.ads[id].imageURL == st.ads[id].imageURL;
    assert e.blobs[input] == st.blobs[input];
    FillSlot(st.ads[id], e.ads[id], Thumbnail);
  }

  /** The written-image stage's writes keep the message ready and fill only the written-image slot. */
  lemma WrittenImageEffectFills(st: Cloud, msg: Message, id: int, stamp: string)
    requires Ready(st, msg, id) && !Filled(st.ads[id], WrittenImage)
    ensures var e := WrittenImageEffect(st, id, stamp);
            && e.queue == st.queue && Ready(e, msg, id)
            && (forall j :: Filled(e.ads[id], j) <==> Filled(st.ads[id], j) || j == WrittenImage)
            && (Complete(e.ads[id]) <==> Filled(st.ads[id], Thumbnail))
  {
    var e := WrittenImageEffect(st, id, stamp);
    var input := BlobName(st.ads[id].imageURL);
    OutputIsNotInput(st.ads[id].imageURL);
    assert e.ads[id].imageURL == st.ads[id].imageURL;
    assert e.blobs[input] == st.blobs[input];
    FillSlot(st.ads[id], e.ads[id], WrittenImage);
  }

  function Other(k: StageKind): StageKind
  {
    match k
    case Thumbnail => WrittenImage
    case WrittenImage => Thumbnail
  }

  /** An ad whose slot k is filled and whose other slot is as before. */
  lemma FillSlot(ad: Ad, after: Ad, k: StageKind)
    requires Filled(after, k) && Slot(after, Other(k)) == Slot(ad, Other(k))
    ensures forall j :: Filled(after, j) <==> Filled(ad, j) || j == k
    ensures Complete(after) <==> Filled(ad, Other(k))
  {
    forall j ensures Filled(after, j) <==> Filled(ad, j) || j == k {
      if j != k {
        assert j == Other(k);
      }
    }
  }

  /** Whatever the order and number of deliveries: a slot ends up filled exactly
      when it was filled before or its stage got the message, and the message is
      gone exactly when some stage handled it and the ad is complete. */
  lemma {:induction false} DeliveriesComplete(st: Cloud, msg: Message, id: int, ks: seq<StageKind>, stamp: string)
    requires Ready(st, msg, id) && HasId(st.queue, msg.id)
    ensures var r := Deliver(st, msg, ks, stamp);
            && id in r.ads
            && (forall j :: Filled(r.ads[id], j) <==> Filled(st.ads[id], j) || j in ks)
            && (!HasId(r.queue, msg.id) <==> |ks| > 0 && Complete(r.ads[id]))
    decreases |ks|
  {
    if ks != [] {
      var r1 := Apply(st, msg, ks[0], stamp).cloud;
      ApplyStep(st, msg, id, ks[0], stamp);
      if HasId(r1.queue, msg.id) {
        var r := Deliver(r1, msg, ks[1..], stamp);
        assert Deliver(st, msg, ks, stamp) == r;
        DeliveriesComplete(r1, msg, id, ks[1..], stamp);
        ContinueCase(st.ads[id], r1.ads[id], r.ads[id], ks, !HasId(r.queue, msg.id));
      } else {
        assert Deliver(st, msg, ks, stamp) == r1;
        StopCase(st.ads[id], r1.ads[id], ks);
      }
    }
  }

  /** The slots after a delivery that kept the message and the deliveries after it. */
  lemma ContinueCase(before: Ad, mid: Ad, after: Ad, ks: seq<StageKind>, goneAfter: bool)
    requires ks != []
    requires forall j :: Filled(mid, j) <==> Filled(before, j) || j == ks[0]
    requires !Complete(mid)
    requires forall j :: Filled(after, j) <==> Filled(mid, j) || j in ks[1..]
    requires goneAfter <==> |ks[1..]| > 0 && Complete(after)
    requires ks[1..] == [] ==> after == mid
    ensures forall j :: Filled(after, j) <==> Filled(before, j) || j in ks
    ensures goneAfter <==> |ks| > 0 && Complete(after)
  {
    forall j ensures j in ks <==> j == ks[0] || j in ks[1..] {
      assert ks == [ks[0]] + ks[1..];
    }
  }

  /** The slots after a delivery that deleted the message. */
  lemma StopCase(before: Ad, after: Ad, ks: seq<StageKind>)
    requires ks != []
    requires forall j :: Filled(after, j) <==> Filled(before, j) || j == ks[0]
    requires Complete(after)
    ensures forall j :: Filled(after, j) <==> Filled(before, j) || j in ks
  {
    assert ks[0] in ks;
  }

  /** What the thumbnail stage writes for ad id: the thumbnail blob and the ad's ThumbnailURL. */
  function ThumbnailEffect(st: Cloud, id: int): Cloud
    requires id in st.ads && BlobName(st.ads[id].imageURL) in st.blobs
    requires ThumbnailRole.Thumbnailable(st.blobs[BlobName(st.ads[id].imageURL)])
  {
    var url := st.ads[id].imageURL;
    var name := ThumbnailName(url);
    st.(blobs := st.blobs[name := ThumbnailRole.ConvertImageToThumbnailJPG(st.blobs[BlobName(url)]).value],
        ads := st.ads[id := st.ads[id].(thumbnailURL := Some(BlobUri(st.containerUri, name)))])
  }

  /** What the written-image stage writes for ad id: the captioned blob and the ad's WrittenImageURL. */
  function WrittenImageEffect(st: Cloud, id: int, stamp: string): Cloud
    requires id in st.ads && BlobName(st.ads[id].imageURL) in st.blobs
  {
    var url := st.ads[id].imageURL;
    var name := WrittenImageName(url);
    st.(blobs := st.blobs[name := WriteImageRole.WriteToImage(st.blobs[BlobName(url)], stamp)],
        ads := st.ads[id := st.ads[id].(writtenImageURL := Some(BlobUri(st.containerUri, name)))])
  }

  /** A delivery to the thumbnail stage of a ready message whose ad lacks a thumbnail. */
  lemma ThumbnailDelivery(st: Cloud, msg: Message, id: int, stamp: string)
    requires Ready(st, msg, id) && HasId(st.queue, msg.id) && !Filled(st.ads[id], Thumbnail)
    ensures Apply(st, msg, Thumbnail, stamp)
         == if Filled(st.ads[id], WrittenImage)
            then Step(ThumbnailEffect(st, id).(queue := RemoveId(st.queue, msg.id)), Done)
            else Step(ThumbnailEffect(st, id), Done)
  {
    ThumbnailRole.HandleCreates(st, msg, NoFault);
  }

  /** A delivery to the written-image stage of a ready message whose ad lacks a written image. */
  lemma WrittenImageDelivery(st: Cloud, msg: Message, id: int, stamp: string)
    requires Ready(st, msg, id) && HasId(st.queue, msg.id) && !Filled(st.ads[id], WrittenImage)
    ensures Apply(st, msg, WrittenImage, stamp)
         == if Filled(st.ads[id], Thumbnail)
            then Step(WrittenImageEffect(st, id, stamp).(queue := RemoveId(st.queue, msg.id)), Done)
            else Step(WrittenImageEffect(st, id, stamp), Done)
  {
    WriteImageRole.HandleCreates(st, msg, NoFault, stamp);
  }

  /** The two stages' writes touch different blobs and different columns of the ad. */
  lemma EffectsCommute(st: Cloud, id: int, stamp: string)
    requires id in st.ads && BlobName(st.ads[id].imageURL) in st.blobs
    requires ThumbnailRole.Thumbnailable(st.blobs[BlobName(st.ads[id].imageURL)])
    ensures WrittenImageEffect(ThumbnailEffect(st, id), id, stamp) == ThumbnailEffect(WrittenImageEffect(st, id, stamp), id)
  {
    var ad := st.ads[id];
    var url := ad.imageURL;
    var input := BlobName(url);
    OutputNamesDiffer(url, url);
    OutputIsNotInput(url);
    var tn, wn := ThumbnailName(url), WrittenImageName(url);
    var tu, wu := Some(BlobUri(st.containerUri, tn)), Some(BlobUri(st.containerUri, wn));
    var thumb := ThumbnailRole.ConvertImageToThumbnailJPG(st.blobs[input]).value;
    var written := WriteImageRole.WriteToImage(st.blobs[input], stamp);
    var t := ThumbnailEffect(st, id);
    var w := WrittenImageEffect(st, id, stamp);
    assert t == st.(blobs := st.blobs[tn := thumb], ads := st.ads[id := ad.(thumbnailURL := tu)]);
    assert w == st.(blobs := st.blobs[wn := written], ads := st.ads[id := ad.(writtenImageURL := wu)]);
    assert t.ads[id].imageURL == url && t.blobs[input] == st.blobs[input];
    assert w.ads[id].imageURL == url && w.blobs[input] == st.blobs[input];
    SwapWrites(st.blobs, tn, wn, thumb, written);
    assert ad.(thumbnailURL := tu).(writtenImageURL := wu) == ad.(writtenImageURL := wu).(thumbnailURL := tu);
  }

  /** Two writes to different keys can be made in either order. */
  lemma SwapWrites<K, V>(m: map<K, V>, k1: K, k2: K, a: V, b: V)
    requires k1 != k2
    ensures m[k1 := a][k2 := b] == m[k2 := b][k1 := a]
  {
  }

  /** Starting from an ad with neither slot filled, the thumbnail stage then the
      written-image stage, or the other way round, leave the same state: the
      first delivery keeps the message, the second deletes it, and both slots
      and both output blobs are there. */
  lemma StagesCommute(st: Cloud, msg: Message, id: int, stamp: string)
    requires Ready(st, msg, id) && HasId(st.queue, msg.id)
    requires !Filled(st.ads[id], Thumbnail) && !Filled(st.ads[id], WrittenImage)
    ensures var tw1 := Apply(st, msg, Thumbnail, stamp).cloud;
            var wt1 := Apply(st, msg, WrittenImage, stamp).cloud;
            var tw := Apply(tw1, msg, WrittenImage, stamp).cloud;
            var wt := Apply(wt1, msg, Thumbnail, stamp).cloud;
            && HasId(tw1.queue, msg.id) && HasId(wt1.queue, msg.id)
            && !HasId(tw.queue, msg.id)
            && id in tw.ads && Complete(tw.ads[id])
            && tw == wt
  {
    ThumbnailDelivery(st, msg, id, stamp);
    WrittenImageDelivery(st, msg, id, stamp);
    var tw1 := ThumbnailEffect(st, id);
    var wt1 := WrittenImageEffect(st, id, stamp);
    ApplyStep(st, msg, id, Thumbnail, stamp);
    ApplyStep(st, msg, id, WrittenImage, stamp);
    WrittenImageDelivery(tw1, msg, id, stamp);
    ThumbnailDelivery(wt1, msg, id, stamp);
    ApplyStep(tw1, msg, id, WrittenImage, stamp);
    EffectsCommute(st, id, stamp);
  }

  // ---------------------------------------------------------------- a poison message

  /** A thumbnail message whose image blob is missing fails on every delivery; the
      poison rule deletes it on the delivery that makes its count exceed
      PoisonThreshold, and nothing else in the state changes. */
  lemma MissingImageIsPoison(st: Cloud, last: Option<Message>, i: nat, stamp: string)
    requires i < |st.queue| && st.queue[i].dequeueCount <= PollLoop.PoisonThreshold
    requires BareId(st.queue[i].payload).Some? && BareId(st.queue[i].payload).value in st.ads
    requires !Filled(st.ads[BareId(st.queue[i].payload).value], Thumbnail)
    requires BlobName(st.ads[BareId(st.queue[i].payload).value].imageURL) !in st.blobs
    ensures PollLoop.Run(ThumbnailRole.Handler, st, last,
                         PollLoop.Repeat(PollLoop.Iteration(false, i, NoFault, stamp),
                                         PollLoop.PoisonThreshold + 1 - st.queue[i].dequeueCount))
         == (st.(queue := RemoveId(st.queue, st.queue[i].id)), PollLoop.Running)
  {
    var body := st.queue[i].payload;
    forall c: Cloud, m: Message, s: string | c == st.(queue := c.queue) && m.id == st.queue[i].id && m.payload == body
      ensures ThumbnailRole.Handler(c, m, NoFault, s) == Step(c, StorageFault)
    {
    }
    PollLoop.FailingMessageDeleted(ThumbnailRole.Handler, st, last, i, NoFault, stamp);
  }

  // ---------------------------------------------------------------- a banner image

  /** When the thumbnail role is handed a message for an ad still without a
      thumbnail whose image is more than 80 times longer than it is wide (or
      tall), the conversion throws an exception Run does not catch: the role
      stops, the message stays queued with one more delivery counted, and the
      ad keeps its empty ThumbnailURL. */
  lemma BannerHaltsRun(st: Cloud, last: Option<Message>, i: nat, fault: Fault, stamp: string, rest: seq<PollLoop.Iteration>)
    requires fault != FindFault && fault != BlobFault
    requires i < |st.queue| && BareId(st.queue[i].payload).Some? && BareId(st.queue[i].payload).value in st.ads
    requires var ad := st.ads[BareId(st.queue[i].payload).value];
             (&& !Filled(ad, Thumbnail)
              && BlobName(ad.imageURL) in st.blobs
              && !ThumbnailRole.Thumbnailable(st.blobs[BlobName(ad.imageURL)]))
    ensures PollLoop.Run(ThumbnailRole.Handler, st, last, [PollLoop.Iteration(false, i, fault, stamp)] + rest)
         == (st.(queue := st.queue[i := st.queue[i].(dequeueCount := st.queue[i].dequeueCount + 1)]), PollLoop.Halted)
  {
    var it := PollLoop.Iteration(false, i, fault, stamp);
    var fetched := st.(queue := Fetch(st.queue, i).0);
    var m := Fetch(st.queue, i).1.value;
    assert m.payload == st.queue[i].payload;
    var img := st.blobs[BlobName(st.ads[BareId(m.payload).value].imageURL)];
    assert img.width > 80 * img.height || img.height > 80 * img.width;
    ThumbnailRole.BannerDeliveryIsFatal(fetched, m, fault);
    assert PollLoop.Iterate(ThumbnailRole.Handler, st, last, it) == PollLoop.Tick(fetched, Some(m), PollLoop.Halted);
    assert ([it] + rest)[0] == it;
  }
}
