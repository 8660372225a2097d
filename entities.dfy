/** The entities the three Contoso Ads worker roles share: the Ad record with its
    two derived-image slots, queue messages and their payloads, stored images,
    and the abstract state of the storage services (database, queue, blob
    container) that one handling of a message changes. */
module Entities {

  datatype Option<T> = None | Some(value: T)

  // ---------------------------------------------------------------- Ad records

  /** The two stages of the pipeline; each owns one URL slot of an Ad. */
  datatype StageKind = Thumbnail | WrittenImage

  /** The columns of an Ad row that the workers read or write. A URL column
      may be NULL (None) or hold any string, the empty one included. */
  datatype Ad = Ad(imageURL: string, thumbnailURL: Option<string>, writtenImageURL: Option<string>)

  /** string.IsNullOrEmpty */
  predicate IsNullOrEmpty(s: Option<string>)
  {
    s.None? || s.value == ""
  }

  function Slot(ad: Ad, k: StageKind): Option<string>
  {
    match k
    case Thumbnail => ad.thumbnailURL
    case WrittenImage => ad.writtenImageURL
  }

  /** Stage k has recorded its output on the ad. */
  predicate Filled(ad: Ad, k: StageKind)
  {
    !IsNullOrEmpty(Slot(ad, k))
  }

  /** Every stage has recorded its output on the ad. */
  predicate Complete(ad: Ad)
  {
    forall k: StageKind :: Filled(ad, k)
  }

  lemma BothFilledComplete(ad: Ad)
    requires Filled(ad, Thumbnail) && Filled(ad, WrittenImage)
    ensures Complete(ad)
  {
    forall k: StageKind ensures Filled(ad, k) {
    }
  }

  /** A slot that was filled keeps its value, and the source image does not change. */
  predicate Keeps(before: Ad, after: Ad)
  {
    && after.imageURL == before.imageURL
    && forall k: StageKind :: Filled(before, k) ==> Slot(after, k) == Slot(before, k)
  }

  /** CheckValidInQueue: the message for this ad still has work to do. */
  function CheckValidInQueue(ad: Ad): (valid: bool)
    ensures valid <==> !Complete(ad)
  {
    if !IsNullOrEmpty(ad.thumbnailURL) && !IsNullOrEmpty(ad.writtenImageURL) then false
    else assert !Filled(ad, Thumbnail) || !Filled(ad, WrittenImage); true
  }

  // ---------------------------------------------------------------- images

  /** A bitmap side: GDI+ bitmaps have at least one pixel in each direction. */
  type Dimension = n: int | 0 < n witness 1

  datatype Point = Point(x: int, y: int)

  /** The pixels of a picture, recorded as the drawing calls that produced them;
      the drawing itself belongs to the graphics library and is not modelled. */
  datatype Raster =
    | Uploaded(bytes: seq<int>)
    | Scaled(source: Raster, width: int, height: int)
    | Captioned(background: Raster, text: string, at: Point, fontPx: int, centered: bool)

  datatype Image = Image(width: Dimension, height: Dimension, raster: Raster)

  // ---------------------------------------------------------------- messages

  /** The JSON envelope read by the envelope-based write-image worker. */
  datatype AdQueue = AdQueue(adId: int, hasWrittenImageURL: bool, hasThumbnailURL: bool)

  /** A message body: plain text (a bare ad id, or any text that is not an
      AdQueue object), or the JSON serialisation of an AdQueue envelope. */
  datatype Payload = Text(text: string) | Envelope(envelope: AdQueue)

  datatype Message = Message(id: nat, payload: Payload, dequeueCount: nat)

  predicate HasId(q: seq<Message>, id: nat)
  {
    exists m :: m in q && m.id == id
  }

  /** Message ids are distinct and below the next id the queue will hand out. */
  predicate QueueValid(q: seq<Message>, nextId: nat)
  {
    && (forall i, j :: 0 <= i < j < |q| ==> q[i].id != q[j].id)
    && (forall m :: m in q ==> m.id < nextId)
  }

  /** The queue after DeleteMessage of the message with this id. */
  function RemoveId(q: seq<Message>, id: nat): (r: seq<Message>)
    ensures forall m :: m in r <==> m in q && m.id != id
    ensures |r| <= |q|
    ensures !HasId(r, id)
    ensures HasId(q, id) ==> |r| < |q|
    ensures !HasId(q, id) ==> r == q
  {
    if q == [] then []
    else if q[0].id == id then RemoveId(q[1..], id)
    else [q[0]] + RemoveId(q[1..], id)
  }

  /** The messages of q whose id is not id, in their order in q. */
  function KeepOthers(q: seq<Message>, id: nat): seq<Message>
  {
    if q == [] then [] else (if q[0].id == id then [] else [q[0]]) + KeepOthers(q[1..], id)
  }

  lemma {:induction false} KeepOthersAppend(a: seq<Message>, b: seq<Message>, id: nat)
    ensures KeepOthers(a + b, id) == KeepOthers(a, id) + KeepOthers(b, id)
    decreases |a|
  {
    if a == [] {
      assert a + b == b;
    } else {
      assert (a + b)[0] == a[0] && (a + b)[1..] == a[1..] + b;
      KeepOthersAppend(a[1..], b, id);
    }
  }

  lemma {:induction false} RemoveIdIsKeepOthers(q: seq<Message>, id: nat)
    ensures RemoveId(q, id) == KeepOthers(q, id)
    decreases |q|
  {
    if q != [] {
      RemoveIdIsKeepOthers(q[1..], id);
    }
  }

  /** DeleteMessage filters the queue in order: removal distributes over
      concatenation, and keeps or drops each single message by its id. */
  lemma RemoveIdKeepsOrder(a: seq<Message>, b: seq<Message>, id: nat)
    ensures RemoveId(a + b, id) == RemoveId(a, id) + RemoveId(b, id)
  {
    RemoveIdIsKeepOthers(a + b, id);
    RemoveIdIsKeepOthers(a, id);
    RemoveIdIsKeepOthers(b, id);
    KeepOthersAppend(a, b, id);
  }

  lemma RemoveIdSingle(m: Message, id: nat)
    ensures RemoveId([m], id) == (if m.id == id then [] else [m])
  {
    assert [m][1..] == [];
  }

  lemma QueueValidTail(q: seq<Message>, n: nat)
    requires QueueValid(q, n) && q != []
    ensures QueueValid(q[1..], n)
    ensures forall m :: m in q[1..] ==> m.id != q[0].id
  {
    forall i, j | 0 <= i < j < |q[1..]| ensures q[1..][i].id != q[1..][j].id {
      assert q[1..][i] == q[i + 1] && q[1..][j] == q[j + 1];
    }
    forall m | m in q[1..] ensures m.id != q[0].id {
      var j :| 0 <= j < |q[1..]| && q[1..][j] == m;
      assert q[j + 1] == m;
    }
  }

  lemma QueueValidCons(m: Message, rest: seq<Message>, n: nat)
    requires QueueValid(rest, n) && m.id < n
    requires forall x :: x in rest ==> x.id != m.id
    ensures QueueValid([m] + rest, n)
  {
    var r := [m] + rest;
    forall i, j | 0 <= i < j < |r| ensures r[i].id != r[j].id {
      assert r[j] == rest[j - 1];
      if i > 0 {
        assert r[i] == rest[i - 1];
      } else {
        assert r[j] in rest;
      }
    }
  }

  /** Deleting keeps ids distinct, and removes exactly one message when the id is present. */
  lemma {:induction false} RemoveIdKeepsValid(q: seq<Message>, n: nat, id: nat)
    requires QueueValid(q, n)
    ensures QueueValid(RemoveId(q, id), n)
    ensures HasId(q, id) ==> |RemoveId(q, id)| == |q| - 1
  {
    if q != [] {
      QueueValidTail(q, n);
      RemoveIdKeepsValid(q[1..], n, id);
      var rest := RemoveId(q[1..], id);
      assert q == [q[0]] + q[1..];
      if q[0].id != id {
        QueueValidCons(q[0], rest, n);
        if HasId(q, id) {
          var m :| m in q && m.id == id;
          assert m in q[1..];
        }
      } else {
        assert !HasId(q[1..], id);
      }
    }
  }

  /** GetMessage: picking the message at index pick delivers it once more;
      a pick past the end stands for "no visible message" (null). */
  function Fetch(q: seq<Message>, pick: nat): (r: (seq<Message>, Option<Message>))
    ensures pick < |q| ==>
              && r.1 == Some(q[pick].(dequeueCount := q[pick].dequeueCount + 1))
              && r.0 == q[pick := r.1.value]
    ensures pick >= |q| ==> r == (q, None)
  {
    if pick < |q| then
      var m := q[pick].(dequeueCount := q[pick].dequeueCount + 1);
      (q[pick := m], Some(m))
    else (q, None)
  }

  // ---------------------------------------------------------------- storage state

  /** The Azure services one handling touches: the Ads table, the "images"
      queue (with the id its next message gets) and the "images" blob
      container, whose address prefixes every blob URI. */
  datatype Cloud = Cloud(ads: map<int, Ad>, queue: seq<Message>, nextId: nat,
                         blobs: map<string, Image>, containerUri: string)

  predicate CloudValid(st: Cloud)
  {
    QueueValid(st.queue, st.nextId)
  }

  /** Which storage call of a handling throws: OpenRead or DeleteMessage throw a
      StorageException; the database's Find and SaveChanges throw its own
      exceptions, which are not StorageExceptions. A call the handling does not
      make does not fail. */
  datatype Fault = NoFault | FindFault | BlobFault | SaveFault | DeleteFault

  /** How a handling ends: it returns, it throws a StorageException (caught by
      Run), or it throws anything else (not caught: the role's Run ends). */
  datatype Outcome = Done | StorageFault | Fatal

  datatype Step = Step(cloud: Cloud, outcome: Outcome)

  /** DeleteMessage on the current state: a message that is no longer in the
      queue cannot be deleted and the queue service answers with an error. */
  function Delete(st: Cloud, msg: Message, fault: Fault): (r: Step)
    ensures OnlyDeletes(st, r, msg, fault)
  {
    if fault != DeleteFault && HasId(st.queue, msg.id) then
      Step(st.(queue := RemoveId(st.queue, msg.id)), Done)
    else
      Step(st, StorageFault)
  }

  /** r is what DeleteMessage(msg) does to st, and nothing else. */
  predicate OnlyDeletes(st: Cloud, r: Step, msg: Message, fault: Fault)
  {
    && r.cloud == st.(queue := r.cloud.queue)
    && if fault != DeleteFault && HasId(st.queue, msg.id)
       then r.outcome == Done && r.cloud.queue == RemoveId(st.queue, msg.id)
       else r.outcome == StorageFault && r.cloud.queue == st.queue
  }

  /** The queue after a handling is either untouched or lacks the handled message. */
  predicate QueueUntouchedOrDeleted(st: Cloud, r: Cloud, msg: Message)
  {
    r.queue == st.queue || r.queue == RemoveId(st.queue, msg.id)
  }

  /** No ad disappears or appears, and every ad keeps its filled slots. */
  predicate AdsKept(st: Cloud, r: Cloud)
  {
    && r.ads.Keys == st.ads.Keys
    && forall i :: i in st.ads ==> Keeps(st.ads[i], r.ads[i])
  }
}
