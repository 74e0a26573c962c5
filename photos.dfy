/**
 * Photo attachments: the files of one selection or drop, the image filter
 * of `handleFiles` and the records pushed onto `uploadedPhotos`.
 */
module Photos {
  import opened Text

  /** The number of photos the form accepts. */
  const MaxPhotos: nat := 5

  /**
   * A file of a selection or a drop. `dataUrl` stands for the data URL
   * FileReader.readAsDataURL produces for it; its encoding is not modelled.
   */
  datatype File = File(name: string, mimeType: string, dataUrl: string)

  /** An entry of the photo list: `{data, name, type}`. */
  datatype Photo = Photo(data: string, name: string, mimeType: string)

  /** `file.type.startsWith('image/')`. */
  predicate IsImage(f: File) {
    StartsWith(f.mimeType, "image/")
  }

  /** The record the reader's load handler pushes for a file. */
  function PhotoOf(f: File): Photo {
    Photo(f.dataUrl, f.name, f.mimeType)
  }

  /** The file a record was made from: its name, its type and its data URL. */
  function FileOf(p: Photo): File {
    File(p.name, p.mimeType, p.data)
  }

  /**
   * The record loses nothing of the file: the file can be read back from it,
   * so two files give the same record only when they are the same file.
   */
  lemma PhotoOfLossless(f: File, g: File)
    ensures FileOf(PhotoOf(f)) == f
    ensures PhotoOf(f) == PhotoOf(g) <==> f == g
  {
    assert FileOf(PhotoOf(g)) == g;
  }

  /** The number of image files in a batch, counted from the front. */
  function ImageCount(files: seq<File>): (n: nat)
    ensures n <= |files|
  {
    if files == [] then 0 else (if IsImage(files[0]) then 1 else 0) + ImageCount(files[1..])
  }

  /** Counting from the back gives the same number. */
  lemma {:induction false} ImageCountSnoc(files: seq<File>, f: File)
    ensures ImageCount(files + [f]) == ImageCount(files) + (if IsImage(f) then 1 else 0)
  {
    if files != [] {
      assert (files + [f])[1..] == files[1..] + [f];
      ImageCountSnoc(files[1..], f);
    }
  }

  /**
   * The photos a batch adds once all its reads have completed, in batch
   * order: one per image file, none for any other file.
   */
  function ImagePhotos(files: seq<File>): (r: seq<Photo>)
    ensures |r| == ImageCount(files)
  {
    if files == [] then []
    else
      var n := |files| - 1;
      var init, last := files[..n], files[n];
      assert files == init + [last];
      ImageCountSnoc(init, last);
      ImagePhotos(init) + (if IsImage(last) then [PhotoOf(last)] else [])
  }

  /**
   * Every added photo has an image type and comes from an image file of the
   * batch, and every image file of the batch has its photo added.
   */
  lemma {:induction false} ImagePhotosContents(files: seq<File>)
    ensures forall k :: 0 <= k < |ImagePhotos(files)| ==> StartsWith(ImagePhotos(files)[k].mimeType, "image/")
    ensures forall k :: 0 <= k < |files| && IsImage(files[k]) ==> PhotoOf(files[k]) in ImagePhotos(files)
    ensures forall p :: p in ImagePhotos(files) ==>
              exists k :: 0 <= k < |files| && IsImage(files[k]) && p == PhotoOf(files[k])
  {
    if files != [] {
      var n := |files| - 1;
      var init, last := files[..n], files[n];
      var head, tail := ImagePhotos(init), if IsImage(last) then [PhotoOf(last)] else [];
      assert ImagePhotos(files) == head + tail;
      ImagePhotosContents(init);
      forall k | 0 <= k < |files| && IsImage(files[k]) ensures PhotoOf(files[k]) in head + tail {
        if k < n { assert files[k] == init[k]; }
      }
      forall p | p in head + tail
        ensures exists k :: 0 <= k < |files| && IsImage(files[k]) && p == PhotoOf(files[k])
      {
        if p in head {
          var k :| 0 <= k < |init| && IsImage(init[k]) && p == PhotoOf(init[k]);
          assert files[k] == init[k];
        } else {
          assert IsImage(files[n]) && p == PhotoOf(files[n]);
        }
      }
    }
  }

  /** A batch with no image file adds nothing; a batch of image files only adds one photo per file. */
  lemma {:induction false} ImagePhotosExtremes(files: seq<File>)
    ensures (forall k :: 0 <= k < |files| ==> !IsImage(files[k])) ==> ImagePhotos(files) == []
    ensures (forall k :: 0 <= k < |files| ==> IsImage(files[k])) ==> |ImagePhotos(files)| == |files|
  {
    if files != [] {
      assert forall k :: 0 <= k < |files| - 1 ==> files[1..][k] == files[k + 1];
      ImagePhotosExtremes(files[1..]);
    }
  }
}

/**
 * The photo list with the file reads still in flight. `handleFiles` starts
 * one FileReader per image file and returns; each reader's load handler
 * later pushes its photo, in whatever order the reads finish. The capacity
 * check of app.js:53 counts only the photos already pushed, so a second
 * batch that arrives while reads are pending passes it. This module models
 * that event sequence on values to show the bound break and to prove the
 * corrected check.
 */
module PendingReads {
  import opened Photos
  import opened Splice

  /** The pushed photos and the photos whose reads have not finished. */
  datatype Uploads = Uploads(photos: seq<Photo>, pending: seq<Photo>)

  /** A batch arrives, with the capacity check as app.js:53 writes it. */
  function DropAsWritten(u: Uploads, files: seq<File>): (r: Uploads)
    ensures |u.photos| + |files| > MaxPhotos ==> r == u
    ensures |u.photos| + |files| <= MaxPhotos ==>
              r.photos == u.photos && r.pending == u.pending + ImagePhotos(files)
  {
    if |u.photos| + |files| > MaxPhotos then u
    else u.(pending := u.pending + ImagePhotos(files))
  }

  /** A batch arrives, with the check also counting the reads still pending. */
  function DropCorrected(u: Uploads, files: seq<File>): (r: Uploads)
    ensures |u.photos| + |u.pending| + |files| > MaxPhotos ==> r == u
    ensures |u.photos| + |u.pending| + |files| <= MaxPhotos ==>
              r.photos == u.photos && r.pending == u.pending + ImagePhotos(files)
  {
    if |u.photos| + |u.pending| + |files| > MaxPhotos then u
    else u.(pending := u.pending + ImagePhotos(files))
  }

  /** The read of pending photo `k` finishes and its handler pushes the photo. */
  function ReadFinished(u: Uploads, k: nat): (r: Uploads)
    requires k < |u.pending|
    ensures r.photos == u.photos + [u.pending[k]]
    ensures |r.pending| == |u.pending| - 1
    ensures multiset(r.photos + r.pending) == multiset(u.photos + u.pending)
  {
    var rest := RemoveAt(u.pending, k);
    assert multiset(u.photos + [u.pending[k]] + rest) == multiset(u.photos) + multiset{u.pending[k]} + multiset(rest);
    Uploads(u.photos + [u.pending[k]], rest)
  }

  /** All pending reads finish, oldest first. */
  function FinishAll(u: Uploads): (r: Uploads)
    ensures r.photos == u.photos + u.pending && r.pending == []
    decreases |u.pending|
  {
    if u.pending == [] then u
    else
      var next := ReadFinished(u, 0);
      assert next.pending == u.pending[1..];
      assert u.photos + u.pending == next.photos + next.pending;
      FinishAll(next)
  }

  /** At most MaxPhotos photos, counting the ones still being read. */
  predicate WithinCap(u: Uploads) {
    |u.photos| + |u.pending| <= MaxPhotos
  }

  function ImageFiles(n: nat): (files: seq<File>)
    ensures |files| == n && forall k :: 0 <= k < n ==> IsImage(files[k])
  {
    seq(n, k => File("photo.jpg", "image/jpeg", "data:image/jpeg;base64,"))
  }

  /**
   * Two batches of five images dropped one after the other, before any read
   * has finished, both pass the check as written, and ten photos end up in
   * the list.
   */
  lemma AsWrittenOverfills()
    ensures var five := ImageFiles(5);
      var u := FinishAll(DropAsWritten(DropAsWritten(Uploads([], []), five), five));
      |u.photos| == 10 && !WithinCap(u)
  {
    var five := ImageFiles(5);
    ImagePhotosExtremes(five);
  }

  /** With the corrected check no batch and no finished read leaves more than MaxPhotos entries. */
  lemma CorrectedKeepsCap(u: Uploads, files: seq<File>)
    requires WithinCap(u)
    ensures WithinCap(DropCorrected(u, files))
  {
  }

  lemma ReadFinishedKeepsCap(u: Uploads, k: nat)
    requires WithinCap(u) && k < |u.pending|
    ensures WithinCap(ReadFinished(u, k))
    ensures |ReadFinished(u, k).photos| <= MaxPhotos
  {
  }

  /**
   * When every read of the previous batch has finished before the next batch
   * arrives, the check as written and the corrected one agree, and the
   * batch's photos end up appended in batch order.
   */
  lemma SettledBatch(u: Uploads, files: seq<File>)
    requires u.pending == []
    ensures DropAsWritten(u, files) == DropCorrected(u, files)
    ensures |u.photos| + |files| <= MaxPhotos ==>
              FinishAll(DropAsWritten(u, files)).photos == u.photos + ImagePhotos(files)
  {
  }
}
