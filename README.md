# Contoso Ads worker roles

A Dafny model of how the Contoso Ads background workers handle each message. Three Azure worker roles share one "images" queue, one "images" blob container and the Ads table:

- **Thumbnail stage** (`ContosoAdsWorker/WorkerRole.cs`). A message body is a bare ad id. The stage writes an 80-pixel thumbnail of the ad's image and records its URI in `ThumbnailURL`.
- **Written-image stage** (`WorkerWriteImage/WorkerRole.cs`). Same kind of message. The stage writes a copy of the image with the time drawn on it and records its URI in `WrittenImageURL`.
- **Envelope variant** (`ContosoAdsWorkerWriteImage/WriteImageWorker.cs`). Its messages carry a JSON `AdQueue` envelope with two progress flags. It writes the captioned copy but never updates the ad. When `HasWrittenImageURL` is false, it writes the image and deletes the message. It then re-enqueues the envelope with that flag set, but only if `HasThumbnailURL` is false. A message whose `HasWrittenImageURL` is already true is never deleted by this role.

A bare-id stage deletes the message at once when the ad it names does not exist. Otherwise it skips its transform when its own slot is already filled, and deletes the message only once both slots are filled. Every role's `Run` loop deletes a message on a caught `StorageException`, but only once the message has been delivered more than five times.

## How the model is organised

- **State.** `Entities.Cloud` is the abstract state: the Ads table as a map, the queue as a sequence of messages with delivery counts, the blobs as a map, and the container's address. The storage services are classes that the roles hold and update in place: `AzureStorage.MessageQueue`, `BlobContainer` and `AdsContext`.
- **Handlers.** Each role's `ProcessQueueMessage` is a method on its worker class. It is proved to do exactly what a pure function `Handle` says. The lemmas are stated about `Handle`.
- **Inputs from the environment.** Failures become a `Fault` parameter naming which call throws: the database's `Find` or `SaveChanges`, the blob read, or `DeleteMessage`. The clock text becomes a `stamp` string.
- **Outcomes.** `Fatal` means an exception that `Run` does not catch (a failed `int.Parse`, undecodable JSON, a failing `Find` or `SaveChanges`, the envelope worker's missing ad, and a thumbnail bitmap with a zero side). `StorageFault` means a `StorageException`, which `Run` catches.
- **The loop.** `Run`'s endless loop runs over a finite script of passes (`PollLoop.Iteration`). Each pass fixes whether `GetMessage` throws, which message it hands out, which call fails, and the clock text.

The `Protocol` module composes the two bare-id handlers on one message. Its results hold under three conditions. No storage call fails during the deliveries. The message names an existing ad whose image blob exists and has a shape the thumbnail stage can size. Every `Find` reads the current row (see "## Left out"). Under those conditions it proves:

- a slot ends up filled exactly when it was filled before or its stage got the message;
- the message leaves the queue exactly when the ad is complete;
- the two stages give the same final state in either order.

### Two consequences of the code that are easy to miss

- **An undecodable message is not deleted.** `int.Parse` (and `JsonConvert` in the envelope variant) throws an exception that is not a `StorageException`. That exception escapes `Run`, and nothing deletes the message. The model gives `Fatal` and no delete.
- **The poison rule runs only in the `catch (StorageException)` block.** It deletes the message the loop's `msg` variable holds once its delivery count exceeds 5. That happens when the handling throws a `StorageException`, or when a later `GetMessage` throws one while `msg` still holds that message. A message whose handling keeps throwing another exception is never deleted by it (`PollLoop.Iterate`).
- **A banner image stops the thumbnail role.** An image more than 80 times longer than it is wide (or tall) gets a thumbnail side of 0 pixels, and `new Bitmap` throws. The model follows the code: the delivery is `Fatal`, nothing is recorded, and `Run` ends (`ThumbnailRole.BannerDeliveryIsFatal`, `Protocol.BannerHaltsRun`). The `Protocol` lemmas are stated for images the thumbnail stage can size (`ThumbnailRole.Thumbnailable`); see "## Findings".

## Model

| member | source | states |
|---|---|---|
| Entities.CheckValidInQueue | ContosoAdsWorker/WorkerRole.cs:54-61 | false exactly when both ThumbnailURL and WrittenImageURL are non-empty, i.e. when the ad is complete (the written-image role has the same check at WorkerWriteImage/WorkerRole.cs lines 56-63) |
| Entities.RemoveId | ContosoAdsWorker/WorkerRole.cs:93 | after DeleteMessage, exactly the messages with other ids remain, none with this id, the queue is shorter when the id was there, and unchanged when it was not |
| Entities.RemoveIdKeepsOrder | ContosoAdsWorker/WorkerRole.cs:93 | DeleteMessage keeps the other messages in their queue order: removal from a concatenation is the concatenation of the removals |
| Entities.RemoveIdKeepsValid | ContosoAdsWorker/WorkerRole.cs:109 | deleting keeps message ids distinct and below the next id, and removes exactly one message when the id is present |
| Entities.Fetch | ContosoAdsWorker/WorkerRole.cs:32 | GetMessage hands out the picked message with its DequeueCount one higher and stores that count back, or hands out null and changes nothing |
| Entities.Delete | ContosoAdsWorker/WorkerRole.cs:122 | DeleteMessage changes only the queue; it succeeds and removes the message exactly when the id is present and the call does not fail, and otherwise raises a StorageException |
| IntParse.ParseInt | ContosoAdsWorker/WorkerRole.cs:103 | int.Parse yields only 32-bit values |
| IntParse.ParseIntCases | ContosoAdsWorker/WorkerRole.cs:103 | text of white space alone, or holding a character that is neither white space, a digit nor a sign, fails; a run of digits parses to its value, and a minus sign before one to the negated value, each failing exactly outside the 32-bit range |
| IntParse.BareIdCases | ContosoAdsWorker/WorkerRole.cs:103 | the ad id of a message is int.Parse of its text, so it fits in 32 bits; a JSON envelope body never passes for a bare id |
| IntParse.ParseFormatRoundTrip | WorkerWriteImage/WorkerRole.cs:102 | parsing the decimal text of any 32-bit ad id gives that id back |
| Naming.AfterLast | ContosoAdsWorker/WorkerRole.cs:70-71 | the blob name taken from the URL holds no '/' and is no longer than the URL |
| Naming.AfterLastIsLongestSuffix | ContosoAdsWorker/WorkerRole.cs:70-71 | the blob name is the last segment: a suffix of the URL that is either the whole URL or preceded by '/' |
| Naming.BeforeLast | ContosoAdsWorker/WorkerRole.cs:74 | the name without its extension is the prefix before the last '.', which is followed by no other '.'; a name without '.' is kept whole |
| Naming.OutputNameShape | ContosoAdsWorker/WorkerRole.cs:70-75 | the thumbnail blob's name is the input blob's name up to its last '.' followed by "thumb.jpg", and the written-image blob's name the same stem followed by "written.jpg" (WorkerWriteImage/WorkerRole.cs line 76 and ContosoAdsWorkerWriteImage/WriteImageWorker.cs line 65); neither holds a '/' |
| Naming.BlobUri | ContosoAdsWorker/WorkerRole.cs:85 | a blob's URI starts with the container address, then '/', then ends with the blob name, so it is never empty |
| Naming.OutputNamesDiffer | WorkerWriteImage/WorkerRole.cs:76 | a thumbnail blob name never equals a written-image blob name, for any two image URLs |
| Naming.OutputIsNotInput | ContosoAdsWorker/WorkerRole.cs:73-75 | neither stage's output blob name equals the input blob name |
| PollLoop.Catch | ContosoAdsWorker/WorkerRole.cs:42-51 | the catch block deletes the current message exactly when it is non-null, has DequeueCount > 5 and is still queued; if it is already gone, the delete's exception ends Run; otherwise the queue is unchanged (the same block is at WorkerWriteImage/WorkerRole.cs lines 44-53 and ContosoAdsWorkerWriteImage/WriteImageWorker.cs lines 42-51) |
| PollLoop.Iterate | ContosoAdsWorker/WorkerRole.cs:28-51 | when GetMessage throws, the poison rule is applied to the message of an earlier pass; otherwise msg is the fetched message, and an empty queue leaves everything unchanged |
| PollLoop.IdleRunChangesNothing | ContosoAdsWorker/WorkerRole.cs:28-52 | the loop (`PollLoop.Run`, one Iterate per pass until one halts) leaves the state unchanged and keeps running while every GetMessage returns no message |
| PollLoop.HaltedRunIgnoresRest | ContosoAdsWorker/WorkerRole.cs:28-52 | once an exception has escaped the loop, later passes change nothing: running a longer script gives the same final state |
| PollLoop.CatchStorageException | ContosoAdsWorker/WorkerRole.cs:42-51 | the catch block on the queue object does exactly what Catch says and issues no new id |
| PollLoop.FailingMessageStays | ContosoAdsWorker/WorkerRole.cs:44 | a message whose handling always throws a StorageException stays queued while it has been delivered at most 5 times, and each pass raises its count by one |
| PollLoop.FailingMessageDeleted | ContosoAdsWorker/WorkerRole.cs:42-51 | such a message is deleted by the pass that delivers it the 6th time, and nothing else changes |
| AzureStorage.MessageQueue.GetMessage | ContosoAdsWorker/WorkerRole.cs:32 | updates the queue exactly as Fetch says |
| AzureStorage.MessageQueue.DeleteMessage | ContosoAdsWorker/WorkerRole.cs:93 | removes the message when its id is present and the call does not fail; otherwise raises a StorageException and changes nothing |
| AzureStorage.MessageQueue.AddMessage | ContosoAdsWorkerWriteImage/WriteImageWorker.cs:91-92 | appends a message with a fresh id and delivery count 0 |
| AzureStorage.BlobContainer.OpenRead | ContosoAdsWorker/WorkerRole.cs:77 | a failing call or a missing blob gives no image; otherwise the stored image |
| AzureStorage.BlobContainer.Write | ContosoAdsWorker/WorkerRole.cs:78-82 | the blob with that name now holds the image; no other blob changes |
| AzureStorage.AdsContext.Find | ContosoAdsWorker/WorkerRole.cs:106 | a failing call throws; otherwise the ad with that id, or null exactly when there is none |
| AzureStorage.AdsContext.SaveChanges | ContosoAdsWorker/WorkerRole.cs:85-86 | the assignment is stored, or a failing save throws and leaves the table as it was |
| ThumbnailRole.ScaledSide | ContosoAdsWorker/WorkerRole.cs:139 | 80*short/long lies between 0 and 80 and is its floor, and it is 80 exactly for a square |
| ThumbnailRole.ThumbnailSizeAsWritten | ContosoAdsWorker/WorkerRole.cs:136-145 | the longer side becomes 80 (the height for a square); the other side is the floor of 80*short/long, below 80 for a landscape image; the result is 80×80 exactly for a square |
| ThumbnailRole.AsWrittenZeroSide | ContosoAdsWorker/WorkerRole.cs:136-150 | as written, a side comes out 0 exactly when the image is more than 80 times longer than it is wide in that direction |
| ThumbnailRole.BannerThumbnailIsEmpty | ContosoAdsWorker/WorkerRole.cs:136-150 | a 1000×10 image gets an 80×0 thumbnail bitmap |
| ThumbnailRole.ThumbnailSize | ContosoAdsWorker/WorkerRole.cs:131-145 | the longer side is 80 and the other at most 80; it equals the as-written size whenever that has no zero side, and is 1 where that one is 0 |
| ThumbnailRole.ThumbnailExamples | ContosoAdsWorker/WorkerRole.cs:131-145 | 100×50 gives 80×40, 50×100 gives 40×80, 64×64 gives 80×80 |
| ThumbnailRole.ThumbnailableExactlyWhenBitmap | ContosoAdsWorker/WorkerRole.cs:136-150 | `Thumbnailable` (neither side more than 80 times the other) holds exactly when both sides of the as-written thumbnail size are positive, so `new Bitmap` accepts them |
| ThumbnailRole.ConvertImageToThumbnailJPG | ContosoAdsWorker/WorkerRole.cs:129-150 | the conversion throws exactly when the image is more than 80 times longer than wide or tall; otherwise the thumbnail has the size as written, which is also the intended ThumbnailSize |
| ThumbnailRole.CreateThumbnailImage | ContosoAdsWorker/WorkerRole.cs:62-97 | a missing input or failing read: StorageException, nothing changes; an image the conversion cannot size: uncaught error, nothing changes; otherwise the thumbnail blob is written; a failing save then leaves the ad as it was; otherwise ThumbnailURL becomes the blob's URI, and the message is deleted exactly when WrittenImageURL is non-empty |
| ThumbnailRole.Handle | ContosoAdsWorker/WorkerRole.cs:98-127 | a body that does not parse, or a failing Find: uncaught error, nothing changes; a missing ad: only a delete; a filled ThumbnailURL: no transform, and the message is deleted exactly when WrittenImageURL is non-empty; otherwise CreateThumbnailImage |
| ThumbnailRole.BannerDeliveryIsFatal | ContosoAdsWorker/WorkerRole.cs:136-150 | a delivery for an ad without a thumbnail whose image is more than 80 times longer than wide (or tall) throws an uncaught error and changes nothing |
| ThumbnailRole.CreateThumbnailImageKeeps | ContosoAdsWorker/WorkerRole.cs:85-95 | no ad appears or disappears, no filled slot changes, WrittenImageURL is untouched, no blob is lost, no id is issued, and the message leaves only when the ad is complete |
| ThumbnailRole.HandleKeeps | ContosoAdsWorker/WorkerRole.cs:98-127 | every handling keeps those invariants; the queue changes only by deleting this message, and only when the ad is missing or complete |
| ThumbnailRole.RetryAfterFailedSave | ContosoAdsWorker/WorkerRole.cs:73-87 | after a handling whose SaveChanges failed, handling the message again does exactly what one handling without that failure does, for a retry whose Find and blob read succeed |
| ThumbnailRole.WorkerRole.Run | ContosoAdsWorker/WorkerRole.cs:24-53 | the loop leaves the services in the state the loop model gives for the script, and stops exactly when an uncaught exception escapes |
| ThumbnailRole.WorkerRole.Pass | ContosoAdsWorker/WorkerRole.cs:30-51 | one pass of the try/catch body equals Iterate with the thumbnail handler |
| ThumbnailRole.WorkerRole.ProcessCreateThumbnailImage | ContosoAdsWorker/WorkerRole.cs:62-97 | the method's effect and outcome equal CreateThumbnailImage; the early delete at lines 65-68 cannot run, since the ad's ThumbnailURL is empty |
| ThumbnailRole.WorkerRole.ProcessQueueMessage | ContosoAdsWorker/WorkerRole.cs:98-127 | the method's effect and outcome equal Handle |
| WriteImageRole.WriteToImage | WorkerWriteImage/WorkerRole.cs:125-160 | the output keeps the input's width and height, shows the input drawn at full size, and has the clock text plus " Son Hoang" left-aligned at (0, Height-40) in a 40-pixel font, so the anchor sits one font height above the bottom edge |
| WriteImageRole.CreateWrittenImage | WorkerWriteImage/WorkerRole.cs:64-96 | the mirror of CreateThumbnailImage for the written-image blob and WrittenImageURL; the message is deleted exactly when ThumbnailURL is non-empty |
| WriteImageRole.Handle | WorkerWriteImage/WorkerRole.cs:98-123 | the mirror of the thumbnail Handle: a body that does not parse or a failing Find is an uncaught error, a missing ad only a delete; with a filled WrittenImageURL there is no transform, and the message is deleted exactly when ThumbnailURL is non-empty |
| WriteImageRole.CreateWrittenImageKeeps | WorkerWriteImage/WorkerRole.cs:86-95 | ThumbnailURL is untouched, no filled slot changes, and the message leaves only when the ad is complete |
| WriteImageRole.HandleKeeps | WorkerWriteImage/WorkerRole.cs:98-123 | every handling keeps those invariants, and deletes only this message, only when its ad is missing or complete |
| WriteImageRole.RetryAfterFailedSave | WorkerWriteImage/WorkerRole.cs:79-87 | after a failed SaveChanges, a retry whose Find and blob read succeed does what one handling without that failure does, at the retry's clock |
| WriteImageRole.WorkerRole.Run | WorkerWriteImage/WorkerRole.cs:25-55 | the loop agrees with the loop model for the written-image handler |
| WriteImageRole.WorkerRole.Pass | WorkerWriteImage/WorkerRole.cs:32-53 | one pass equals Iterate with the written-image handler |
| WriteImageRole.WorkerRole.ProcessCreateWrittenImage | WorkerWriteImage/WorkerRole.cs:64-96 | the method's effect and outcome equal CreateWrittenImage; the early delete at lines 67-70 cannot run |
| WriteImageRole.WorkerRole.ProcessQueueMessage | WorkerWriteImage/WorkerRole.cs:98-123 | the method's effect and outcome equal Handle |
| EnvelopeRole.WriteToImage | ContosoAdsWorkerWriteImage/WriteImageWorker.cs:98-132 | the output keeps the input's width and height, shows the input at full size, and has the clock text centred on (10, Height-10) in a 20-pixel font |
| EnvelopeRole.Advanced | ContosoAdsWorkerWriteImage/WriteImageWorker.cs:88 | the envelope after this worker's part has HasWrittenImageURL set, and keeps its ad id and HasThumbnailURL |
| EnvelopeRole.Enqueue | ContosoAdsWorkerWriteImage/WriteImageWorker.cs:91-92 | the queue gains one message at its tail, with a fresh id and the given body; nothing else changes |
| EnvelopeRole.CreateWrittenImage | ContosoAdsWorkerWriteImage/WriteImageWorker.cs:54-75 | a failing Find or a missing ad throws an uncaught exception and nothing changes; a missing input or failing read throws a StorageException; otherwise only the written-image blob is written |
| EnvelopeRole.Handle | ContosoAdsWorkerWriteImage/WriteImageWorker.cs:76-96 | the ad table is never changed; a true HasWrittenImageURL does nothing; otherwise the image is written before the message is deleted, and on success the queue is the old one without the message, plus (exactly when HasThumbnailURL is false) the envelope with HasWrittenImageURL set |
| EnvelopeRole.FollowUpIsIgnored | ContosoAdsWorkerWriteImage/WriteImageWorker.cs:82-93 | the envelope re-enqueued after a handling is the old one with HasWrittenImageURL set, so a later delivery of it does nothing |
| EnvelopeRole.HandleKeepsValid | ContosoAdsWorkerWriteImage/WriteImageWorker.cs:87-93 | message ids stay distinct; a completed handling of an unprocessed envelope shortens the queue by one when HasThumbnailURL is true and keeps its length when it is false |
| EnvelopeRole.WriteImageWorker.Run | ContosoAdsWorkerWriteImage/WriteImageWorker.cs:23-53 | the loop agrees with the loop model for the envelope handler |
| EnvelopeRole.WriteImageWorker.Pass | ContosoAdsWorkerWriteImage/WriteImageWorker.cs:30-51 | one pass equals Iterate with the envelope handler |
| EnvelopeRole.WriteImageWorker.ProcessCreateWrittenImage | ContosoAdsWorkerWriteImage/WriteImageWorker.cs:54-75 | the method's effect and outcome equal CreateWrittenImage; it touches only the blob container |
| EnvelopeRole.WriteImageWorker.ProcessQueueMessage | ContosoAdsWorkerWriteImage/WriteImageWorker.cs:76-96 | the method's effect and outcome equal Handle |
| Protocol.ThumbnailKeepsValid | ContosoAdsWorker/WorkerRole.cs:98-127 | a thumbnail handling keeps queued message ids distinct and below the next id |
| Protocol.WrittenImageKeepsValid | WorkerWriteImage/WorkerRole.cs:98-123 | a written-image handling keeps queued message ids distinct and below the next id |
| Protocol.ApplyStep | ContosoAdsWorker/WorkerRole.cs:114-124 | a fault-free delivery of a message whose ad exists, and whose image exists and has a shape the thumbnail stage can size, fills the stage's own slot and no other, and deletes the message exactly when the ad is then complete |
| Protocol.DeliveriesComplete | WorkerWriteImage/WorkerRole.cs:111-121 | for an image the thumbnail stage can size and any sequence of fault-free deliveries to either stage, a slot ends up filled exactly when it was filled before or its stage got the message, and the message is gone exactly when some stage got it and the ad is complete |
| Protocol.EffectsCommute | WorkerWriteImage/WorkerRole.cs:76-87 | the two stages' writes touch different blobs and different columns of the ad, so they commute |
| Protocol.StagesCommute | WorkerWriteImage/WorkerRole.cs:111-119 | from an ad with neither slot filled and an image the thumbnail stage can size, thumbnail-then-written and written-then-thumbnail leave the same state; only the second delivery deletes the message, and the ad is complete |
| Protocol.BannerHaltsRun | ContosoAdsWorker/WorkerRole.cs:27-52 | a pass that hands the thumbnail role a message whose ad lacks a thumbnail and whose image is more than 80 times longer than wide (or tall) ends Run; the message stays queued with one more delivery counted, and nothing else changes |
| Protocol.MissingImageIsPoison | ContosoAdsWorker/WorkerRole.cs:42-51 | a thumbnail message whose ad's image blob is missing is deleted by the pass that delivers it the 6th time, and nothing else changes |

## Left out

- `OnStart` in all three roles (configuration, connection limits, creating the queue and container, permissions): setup that does not decide how messages are handled.
- Decoding the bitmap, `Graphics.DrawImage` and `DrawString`, the fonts, brushes, interpolation modes, JPEG encoding and the content-type tag: these belong to the graphics library. An image is a term recording its size and what was drawn (`Raster`); only the size and anchor arithmetic is modelled.
- Logging through `Trace.TraceInformation` and `Trace.TraceError`, including the poison-item message in the catch block: it writes diagnostics only and changes no state.
- `DateTime.Now`: the clock text is the `stamp` parameter of each pass.
- The one-second and five-second sleeps, and the endless `while (true)`: the loop runs over a finite script of passes.
- Concurrency between role instances, visibility timeouts, leases and pop receipts: which message `GetMessage` hands out is the `pick` of each pass. A delete of a message that has already left the queue is a `StorageException`.
- `BeginAddMessage` is asynchronous; the model appends the message at once.
- The internals of `JsonConvert`: an envelope body is an `AdQueue` value, and any other body is `Text`, which the envelope worker cannot decode (uncaught error). A JSON body of `null`, which the code would dereference, falls under that `Text` case too.
- Entity Framework's change tracking and the caching in `Find`: every lookup reads the current row, and a failing `SaveChanges` leaves the row as it was. In the code, `db` lives as long as the role instance, and `Find` hands back an ad it already tracks without reading the row again. Suppose a written-image delivery loads the ad and then throws in `OpenRead`, and the thumbnail role fills `ThumbnailURL` meanwhile. The next written-image delivery then fills `WrittenImageURL` but still sees an empty `ThumbnailURL`, so it does not delete the message. The thumbnail role is held back in the same way by a stale `WrittenImageURL`. No `StorageException` is thrown, so the poison rule never fires, and the message stays queued.
- Protocol.DeliveriesComplete: "the message is gone exactly when the ad is complete" relies on every `Find` reading the current row; with the caching above, an ad can be complete while its message stays queued.
- `Uri` parsing: the blob name is the text after the last '/' of the image URL. The model does not capture a URL that `new Uri` rejects, a URL with a query or fragment, percent-decoding, or a null `ImageURL`.
- `int.Parse` in a culture whose signs are not '-' and '+', and the trailing NUL characters it also accepts. The model keeps what the `Integer` number style allows: surrounding white space, an optional sign and decimal digits in the 32-bit range.
- ThumbnailRole.ThumbnailSizeAsWritten: does not model 32-bit wrap-around of `80 * Height` and `80 * Width`, because it needs a side over 26,843,545 pixels, far beyond the images GDI+ can decode.
- A blob that exists but cannot be decoded as a bitmap: every stored blob counts as an image.
- When `ConvertImageToThumbnailJPG` throws, the `using` block disposes the thumbnail's output stream, which was already open. What that disposal leaves in the container belongs to the storage client library. The model leaves the container unchanged.
- A `StorageException` from the `DeleteMessage` inside the catch block: the model applies a delete there that fails only when the message has already left the queue.

## Findings

| source | as written | input that shows it | evidently intended | confidence | as-written member | corrected member |
|---|---|---|---|---|---|---|
| ContosoAdsWorker/WorkerRole.cs:136-150 | the short side is `80 * short / long` in integer division, which is 0 once the image is more than 80 times longer than wide; `new Bitmap(80, 0)` then throws an `ArgumentException`, which `Run` does not catch, so the role stops | a 1000×10 banner image gives width 80 and height 0 | a thumbnail whose short side is at least one pixel | not executed | ThumbnailRole.BannerThumbnailIsEmpty | ThumbnailRole.ThumbnailSize |

The handlers model the code as written: `ThumbnailRole.ConvertImageToThumbnailJPG` fails for such an image, and `ThumbnailRole.BannerDeliveryIsFatal` and `Protocol.BannerHaltsRun` show the delivery ending `Run`. `ThumbnailRole.ThumbnailSize` is the intended size, with the short side kept at one pixel at least. The conversion's contract proves that it gives that size on every image where it does not throw.
