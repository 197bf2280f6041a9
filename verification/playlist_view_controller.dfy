/**
 PlaylistViewController: the list of recordings shown in the playlist table,
 read from the Documents directory, and deletion of a row.
 */
module PlaylistViewController {
  import opened Wrappers
  import opened Paths

  predicate IsVideoFile(url: string) {
    HasSuffix(LastPathComponent(url), ".mp4")
  }

  /** Reference definition: the video files of a directory listing, in listing order. */
  function VideoFilesOf(files: seq<string>): (r: seq<string>)
    ensures |r| <= |files|
  {
    if |files| == 0 then []
    else
      var rest := VideoFilesOf(files[..|files| - 1]);
      if IsVideoFile(files[|files| - 1]) then rest + [files[|files| - 1]] else rest
  }

  /** listVideoFiles: the list is emptied, then every entry of the directory
      listing whose last path component ends in ".mp4" is appended in
      order. A listing that throws (`None`) leaves the list empty. */
  method ListVideoFiles(listing: Option<seq<string>>) returns (videoFiles: seq<string>)
    ensures listing.None? ==> videoFiles == []
    ensures listing.Some? ==> videoFiles == VideoFilesOf(listing.value)
  {
    videoFiles := [];
    if listing.Some? {
      var fileURLs := listing.value;
      var i := 0;
      while i < |fileURLs|
        invariant i <= |fileURLs|
        invariant videoFiles == VideoFilesOf(fileURLs[..i])
      {
        assert fileURLs[..i + 1][..i] == fileURLs[..i];
        if IsVideoFile(fileURLs[i]) {
          videoFiles := videoFiles + [fileURLs[i]];
        }
        i := i + 1;
      }
      assert fileURLs[..i] == fileURLs;
    }
  }

  /** showVideos: the list is read and the table reloaded, so the table
      shows one row per listed video file. */
  method ShowVideos(listing: Option<seq<string>>) returns (p: Playlist)
    ensures Consistent(p)
    ensures listing.Some? ==> p.videoFiles == VideoFilesOf(listing.value)
    ensures listing.None? ==> p.videoFiles == []
  {
    var files := ListVideoFiles(listing);
    p := Playlist(files, |files|);
  }

  /** Exactly the video files of the listing are kept. */
  lemma {:induction false} VideoFilesMembership(files: seq<string>, url: string)
    ensures url in VideoFilesOf(files) <==> url in files && IsVideoFile(url)
  {
    if |files| > 0 {
      var init := files[..|files| - 1];
      var last := files[|files| - 1];
      VideoFilesMembership(init, url);
      assert files == init + [last];
      assert url in files <==> url in init || url == last;
      assert VideoFilesOf(files) == VideoFilesOf(init) + (if IsVideoFile(last) then [last] else []);
    }
  }

  /** `a` can be obtained from `b` by deleting elements (matched from the end). */
  ghost predicate IsSubsequence(a: seq<string>, b: seq<string>)
    decreases |b|
  {
    if |a| == 0 then true
    else if |b| == 0 then false
    else if a[|a| - 1] == b[|b| - 1] then IsSubsequence(a[..|a| - 1], b[..|b| - 1])
    else IsSubsequence(a, b[..|b| - 1])
  }

  /** Dropping the last element of a subsequence leaves a subsequence. */
  lemma {:induction false} SubsequenceDropLast(a: seq<string>, b: seq<string>)
    requires |a| > 0 && IsSubsequence(a, b)
    ensures IsSubsequence(a[..|a| - 1], b)
    decreases |b|, 1
  {
    if a[|a| - 1] != b[|b| - 1] {
      SubsequenceDropLast(a, b[..|b| - 1]);
    }
    SubsequenceExtend(a[..|a| - 1], b);
  }

  /** A subsequence of all but the last element is a subsequence of the whole. */
  lemma {:induction false} SubsequenceExtend(a: seq<string>, b: seq<string>)
    requires |b| > 0 && IsSubsequence(a, b[..|b| - 1])
    ensures IsSubsequence(a, b)
    decreases |b|, 0
  {
    if |a| > 0 && a[|a| - 1] == b[|b| - 1] {
      SubsequenceDropLast(a, b[..|b| - 1]);
    }
  }

  /** Filtering keeps the listing's order. */
  lemma {:induction false} VideoFilesKeepOrder(files: seq<string>)
    ensures IsSubsequence(VideoFilesOf(files), files)
  {
    if |files| > 0 {
      var init := files[..|files| - 1];
      VideoFilesKeepOrder(init);
      var rest := VideoFilesOf(init);
      if IsVideoFile(files[|files| - 1]) {
        assert (rest + [files[|files| - 1]])[..|rest|] == rest;
      } else {
        SubsequenceExtend(rest, files);
      }
    }
  }

  /** The playlist screen: the data source's list and the number of rows
      the table view currently shows. */
  datatype Playlist = Playlist(videoFiles: seq<string>, displayedRows: nat)

  /** tableView(_:numberOfRowsInSection:): one row per listed file. */
  function NumberOfRows(videoFiles: seq<string>): nat {
    |videoFiles|
  }

  /** After a listing, the table has a row for every directory entry
      exactly when every entry is a video file; otherwise it has fewer. */
  lemma {:induction false} RowsOfListing(files: seq<string>)
    ensures NumberOfRows(VideoFilesOf(files)) <= |files|
    ensures NumberOfRows(VideoFilesOf(files)) == |files| <==> forall i :: 0 <= i < |files| ==> IsVideoFile(files[i])
  {
    if |files| > 0 {
      var init := files[..|files| - 1];
      var last := files[|files| - 1];
      RowsOfListing(init);
      assert (forall i :: 0 <= i < |files| ==> IsVideoFile(files[i]))
         <==> (forall i :: 0 <= i < |init| ==> IsVideoFile(init[i])) && IsVideoFile(last)
      by {
        assert forall i :: 0 <= i < |init| ==> init[i] == files[i];
      }
    }
  }

  /** The table shows as many rows as its data source reports. */
  predicate Consistent(p: Playlist) {
    p.displayedRows == NumberOfRows(p.videoFiles)
  }

  /** tableView(_:commit:forRowAt:) for a delete, as written: the file at
      `row` is removed from the list only when removing it from disk
      succeeded, but the table row is deleted either way. The source traps
      on a row outside the list. */
  function CommitDelete(p: Playlist, row: nat, removed: bool): (r: Playlist)
    requires row < |p.videoFiles| && row < p.displayedRows
    ensures removed ==> |r.videoFiles| == |p.videoFiles| - 1
    ensures removed ==> forall i :: 0 <= i < row ==> r.videoFiles[i] == p.videoFiles[i]
    ensures removed ==> forall i :: row <= i < |r.videoFiles| ==> r.videoFiles[i] == p.videoFiles[i + 1]
    ensures !removed ==> r.videoFiles == p.videoFiles
    ensures r.displayedRows == p.displayedRows - 1
  {
    var files := if removed then p.videoFiles[..row] + p.videoFiles[row + 1..] else p.videoFiles;
    Playlist(files, p.displayedRows - 1)
  }

  /** A successful delete takes out exactly the chosen file: putting it back
      at its row restores the list. */
  lemma DeleteRemovesOnlyRow(p: Playlist, row: nat)
    requires row < |p.videoFiles| && row < p.displayedRows
    ensures var r := CommitDelete(p, row, true).videoFiles;
      r[..row] + [p.videoFiles[row]] + r[row..] == p.videoFiles
  {
    var r := CommitDelete(p, row, true).videoFiles;
    assert r[..row] == p.videoFiles[..row];
    assert r[row..] == p.videoFiles[row + 1..];
  }

  /** When removing the file fails, the table loses a row its data source
      still reports: the table and the list disagree. */
  lemma CommitDeleteFailureDesyncs(p: Playlist, row: nat)
    requires row < |p.videoFiles| && row < p.displayedRows
    requires Consistent(p)
    ensures !Consistent(CommitDelete(p, row, false))
  {
  }

  /** The delete with the table update moved inside the success branch. */
  function CommitDeleteChecked(p: Playlist, row: nat, removed: bool): (r: Playlist)
    requires row < |p.videoFiles| && row < p.displayedRows
    ensures removed ==> r == CommitDelete(p, row, true)
    ensures !removed ==> r == p
  {
    if removed then Playlist(p.videoFiles[..row] + p.videoFiles[row + 1..], p.displayedRows - 1) else p
  }

  /** The checked delete keeps table and list in agreement, whether or not
      the file could be removed. */
  lemma CommitDeleteCheckedConsistent(p: Playlist, row: nat, removed: bool)
    requires row < |p.videoFiles| && row < p.displayedRows
    requires Consistent(p)
    ensures Consistent(CommitDeleteChecked(p, row, removed))
  {
  }
}
