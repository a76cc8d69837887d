/** What one undisturbed call of `get_driver_location` does, as a relation between the manager's map
    and directory before and after. */
module DriverCalls {
  import opened Wrappers
  import opened Decimal
  import opened DriverCodec
  import opened DriverScan
  import Download = DownloadUtil
  import Md5

  datatype World = World(live: map<string, EntryView>, files: map<string, Bytes>)

  datatype Request = Request(name: string, checksum: string, now: Int64)

  function Created(dir: string, req: Request): EntryView {
    var jar := Jar(req.name, req.checksum, req.now);
    EntryView(jar, Location(dir, jar), false, false, false)
  }

  predicate IsExpected(view: EntryView, req: Request) {
    view.jar.name == req.name && view.jar.checksum == req.checksum
  }

  /** The entry the critical section settles on. */
  function Settle(dir: string, live: map<string, EntryView>, req: Request): EntryView {
    if req.name in live && IsExpected(live[req.name], req) then live[req.name] else Created(dir, req)
  }

  function AsPublished(view: EntryView): EntryView {
    view.(downloaded := true, available := true)
  }

  /** An available driver is answered at once and nothing changes. Otherwise one download is made:
      if it succeeds the driver is published and its file put in place; if it fails no file but the
      temporary one changes, and the call fails, unless the status is dropped. */
  ghost predicate Call(
    dir: string, md5: Bytes -> Md5.Digest, honour: bool, w: World, req: Request,
    t: Download.Transfer, w': World, status: Status, location: string)
  {
    var view := Settle(dir, w.live, req);
    if view.available then w' == w && status.Ok? && location == view.location
    else
      var ok := Download.Succeeds(md5, req.checksum, t);
      var tmp := TmpPath(dir, req.name, req.checksum);
      && w'.live == w.live[req.name := if ok || !honour then AsPublished(view) else view]
      && w'.files - {tmp}
         == (if ok then w.files[view.location := t.OnDisk(Download.Concat(t.chunks))] else w.files) - {tmp}
      && (status.Ok? <==> ok || !honour)
      && (status.Ok? ==> location == view.location)
  }

  /** The file at `location` holds `content`, which is what was asked for. */
  predicate HoldsAsked(
    files: map<string, Bytes>, location: string, content: Bytes, md5: Bytes -> Md5.Digest, checksum: string)
  {
    location in files && files[location] == content && Download.Matches(md5, content, checksum)
  }

  /** A call that had to download, put together from its lookup and its download. */
  lemma CallMade(
    dir: string, md5: Bytes -> Md5.Digest, honour: bool, w: World, req: Request,
    t: Download.Transfer, w': World, status: Status, location: string)
    requires var view := Settle(dir, w.live, req);
      && !view.available
      && w'.live == w.live[req.name := if status.Ok? then AsPublished(view) else view]
      && (status.Ok? ==> location == view.location)
    requires var ok := Download.Succeeds(md5, req.checksum, t);
      var tmp := TmpPath(dir, req.name, req.checksum);
      && (status.Ok? <==> ok || !honour)
      && w'.files - {tmp}
         == (if ok then w.files[Settle(dir, w.live, req).location := t.OnDisk(Download.Concat(t.chunks))]
             else w.files) - {tmp}
    ensures Call(dir, md5, honour, w, req, t, w', status, location)
  {
  }

  /** After a call that returned OK and had to download, the location's file holds everything that was
      delivered, and that is what was asked for, exactly when the download itself returned OK and its
      last flush lost nothing, or it failed and such a file was there before. With the status dropped
      the call's own OK says neither. */
  lemma CallDelivers(
    dir: string, md5: Bytes -> Md5.Digest, honour: bool, w: World, req: Request,
    t: Download.Transfer, w': World, status: Status, location: string)
    requires Call(dir, md5, honour, w, req, t, w', status, location) && status.Ok?
    requires Settle(dir, w.live, req).location != TmpPath(dir, req.name, req.checksum)
    ensures var content := Download.Concat(t.chunks);
      !Settle(dir, w.live, req).available ==>
        (HoldsAsked(w'.files, location, content, md5, req.checksum)
         <==> if Download.Succeeds(md5, req.checksum, t) then t.flushed >= |content|
              else HoldsAsked(w.files, location, content, md5, req.checksum))
  {
    Download.VerifiedIffFlushed(t);
    var view := Settle(dir, w.live, req);
    if !view.available {
      var tmp := TmpPath(dir, req.name, req.checksum);
      assert location in w'.files <==> location in w'.files - {tmp};
      assert location in w'.files ==> w'.files[location] == (w'.files - {tmp})[location];
    }
  }

  /** A call that returned OK settles the matter: the next call for the same driver, whenever made and
      whatever its transfer would do, changes nothing and gives the same location. */
  lemma NextCallHits(
    dir: string, md5: Bytes -> Md5.Digest, honour: bool, w: World, first: Request, t: Download.Transfer,
    w': World, location: string, next: Request, u: Download.Transfer, w'': World, status: Status, again: string)
    requires Call(dir, md5, honour, w, first, t, w', Ok, location)
    requires forall n | n in w.live :: w.live[n].jar.name == n
    requires next.name == first.name && next.checksum == first.checksum
    requires Call(dir, md5, honour, w', next, u, w'', status, again)
    ensures status.Ok? && again == location && w'' == w'
  {
    var view := Settle(dir, w.live, first);
    if view.available {
      assert first.name in w'.live && w'.live[first.name] == view;
    } else {
      assert w'.live[first.name] == AsPublished(view);
    }
  }

  /** A call that failed leaves its entry to be downloaded: the next call for the same driver, whatever the
      clock says by then, tries for the same location again, and is answered exactly if that goes well. */
  lemma NextCallRetries(
    dir: string, md5: Bytes -> Md5.Digest, w: World, first: Request, t: Download.Transfer,
    w': World, location: string, next: Request, u: Download.Transfer, w'': World, status: Status, again: string)
    requires Call(dir, md5, true, w, first, t, w', InternalError, location)
    requires next.name == first.name && next.checksum == first.checksum
    requires Call(dir, md5, true, w', next, u, w'', status, again)
    ensures !Settle(dir, w.live, first).available
    ensures Settle(dir, w'.live, next) == Settle(dir, w.live, first)
    ensures status.Ok? <==> Download.GoesRight(md5, first.checksum, u)
    ensures status.Ok? ==> again == Settle(dir, w.live, first).location
  {
    Download.SucceedsIffGoesRight(md5, first.checksum, u);
  }
}
