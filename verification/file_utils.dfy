/** `file_utils`: reading a playlist file into its track lines and the
    validation chain run before a file is accepted. The file system becomes a
    record of facts about the path, and decoding the bytes with an encoding
    becomes a function that yields the lines or fails. */
module FileUtils {
  import opened Wrappers
  import opened Text
  import opened Seqs

  // ------------------------------------------------------------ line filter

  const CommentMark := "#"

  /** The comprehension's condition: `line.strip() and not
      line.strip().startswith('#')`. */
  predicate KeepLine(line: string) {
    NonBlank(line) && !StartsWith(Strip(line), CommentMark)
  }

  /** A line as the filter leaves it: non-blank, stripped, not a comment. */
  predicate IsTrackLine(line: string) {
    NonBlank(line) && Strip(line) == line && !StartsWith(line, CommentMark)
  }

  /** Stripping a kept line gives a track line. */
  lemma StrippedKeptLine(line: string)
    requires KeepLine(line)
    ensures IsTrackLine(Strip(line))
  {
    StripOfStripped(Strip(line));
  }

  /** The comprehension of `read_playlist_file`, one line at a time. */
  function FilterLines(lines: seq<string>): (r: seq<string>)
    ensures |r| <= |lines|
    ensures forall k :: 0 <= k < |r| ==> IsTrackLine(r[k])
    decreases |lines|
  {
    if |lines| == 0 then []
    else if KeepLine(lines[0]) then
      StrippedKeptLine(lines[0]);
      [Strip(lines[0])] + FilterLines(lines[1..])
    else FilterLines(lines[1..])
  }

  /** The filter is the stripped lines that pass the condition, in their
      order. */
  lemma {:induction false} FilterLinesIsStrippedKept(lines: seq<string>)
    ensures FilterLines(lines) == Map(Strip, Filter(KeepLine, lines))
    decreases |lines|
  {
    if |lines| > 0 {
      FilterLinesIsStrippedKept(lines[1..]);
      var rest := Filter(KeepLine, lines[1..]);
      if KeepLine(lines[0]) {
        assert Filter(KeepLine, lines) == [lines[0]] + rest;
        MapCons(Strip, lines[0], rest);
      } else {
        assert Filter(KeepLine, lines) == rest;
      }
    }
  }

  /** Filtering concatenated lines filters each part: the order of the file
      is kept. */
  lemma {:induction false} FilterLinesAppend(a: seq<string>, b: seq<string>)
    ensures FilterLines(a + b) == FilterLines(a) + FilterLines(b)
    decreases |a|
  {
    if |a| == 0 {
      assert a + b == b;
    } else {
      assert (a + b)[0] == a[0];
      assert (a + b)[1..] == a[1..] + b;
      FilterLinesAppend(a[1..], b);
    }
  }

  /** Lines that are already track lines pass unchanged. */
  lemma {:induction false} FilterLinesKeepsTrackLines(lines: seq<string>)
    requires forall k :: 0 <= k < |lines| ==> IsTrackLine(lines[k])
    ensures FilterLines(lines) == lines
    decreases |lines|
  {
    if |lines| > 0 {
      FilterLinesKeepsTrackLines(lines[1..]);
    }
  }

  /** Filtering a filtered list changes nothing. */
  lemma FilterLinesIdempotent(lines: seq<string>)
    ensures FilterLines(FilterLines(lines)) == FilterLines(lines)
  {
    FilterLinesKeepsTrackLines(FilterLines(lines));
  }

  /** The readers without a comment filter (`_read_tracks_from_file` and the
      legacy script's loop) keep `line.strip()` of every non-blank line. */
  function StrippedLines(lines: seq<string>): (r: seq<string>)
    ensures |r| <= |lines|
    ensures forall k :: 0 <= k < |r| ==> NonBlank(r[k]) && Strip(r[k]) == r[k]
  {
    var kept := Filter(NonBlank, lines);
    forall k | 0 <= k < |kept|
      ensures NonBlank(Strip(kept[k])) && Strip(Strip(kept[k])) == Strip(kept[k])
    {
      StripOfStripped(Strip(kept[k]));
    }
    Map(Strip, kept)
  }

  predicate NotComment(line: string) {
    !StartsWith(line, CommentMark)
  }

  /** The two readers differ only in the comment lines: `read_playlist_file`
      keeps exactly the stripped lines that do not start with `#`. */
  lemma {:induction false} FilterLinesDropsOnlyComments(lines: seq<string>)
    ensures FilterLines(lines) == Filter(NotComment, StrippedLines(lines))
    decreases |lines|
  {
    if |lines| > 0 {
      var l, t := lines[0], lines[1..];
      assert lines == [l] + t;
      FilterLinesDropsOnlyComments(t);
      FilterCons(NonBlank, l, t);
      if NonBlank(l) {
        MapCons(Strip, l, Filter(NonBlank, t));
        assert StrippedLines(lines) == [Strip(l)] + StrippedLines(t);
        FilterCons(NotComment, Strip(l), StrippedLines(t));
      } else {
        assert StrippedLines(lines) == StrippedLines(t);
      }
    }
  }

  // ---------------------------------------------------------------- reading

  /** What the file system answers about a path. `decode(e)` is the list of
      lines read with encoding `e`, or None when opening or decoding with it
      fails. */
  datatype FileFacts = FileFacts(
    path: string,
    present: bool,
    isFile: bool,
    size: nat,
    decode: string -> Option<seq<string>>)

  /** The encodings tried, in order. */
  const Encodings := ["utf-8", "utf-8-sig", "latin1", "cp1252"]

  datatype ReadError =
    | FileNotFound(message: string)
    | NotAFile(message: string)
    | Undecodable(message: string)

  /** Index of the first encoding that decodes, or |encodings|. */
  function FirstDecoding(decode: string -> Option<seq<string>>, encodings: seq<string>): (i: nat)
    ensures i <= |encodings|
    ensures i < |encodings| ==> decode(encodings[i]).Some?
    ensures forall j :: 0 <= j < i ==> decode(encodings[j]).None?
  {
    if |encodings| == 0 || decode(encodings[0]).Some? then 0
    else 1 + FirstDecoding(decode, encodings[1..])
  }

  /** `read_playlist_file`: a missing path and a path that is not a file are
      rejected before anything is read; otherwise the lines of the first
      encoding that decodes are filtered. */
  function ReadPlaylistFile(f: FileFacts): (r: Result<seq<string>, ReadError>)
    ensures !f.present ==> r == Err(FileNotFound("Playlist file not found: " + f.path))
    ensures f.present && !f.isFile ==> r == Err(NotAFile("Path is not a file: " + f.path))
    ensures r.Ok? <==>
      f.present && f.isFile && exists j :: 0 <= j < |Encodings| && f.decode(Encodings[j]).Some?
    ensures r.Ok? ==>
      exists i ::
      && 0 <= i < |Encodings|
      && f.decode(Encodings[i]).Some?
      && (forall j :: 0 <= j < i ==> f.decode(Encodings[j]).None?)
      && r.value == FilterLines(f.decode(Encodings[i]).value)
    ensures r.Ok? ==> forall k :: 0 <= k < |r.value| ==> IsTrackLine(r.value[k])
  {
    if !f.present then Err(FileNotFound("Playlist file not found: " + f.path))
    else if !f.isFile then Err(NotAFile("Path is not a file: " + f.path))
    else
      var i := FirstDecoding(f.decode, Encodings);
      if i == |Encodings| then
        Err(Undecodable("Could not decode file " + f.path + " with any supported encoding"))
      else Ok(FilterLines(f.decode(Encodings[i]).value))
  }

  /** Whatever the later encodings would give, a file that decodes as UTF-8
      is read as UTF-8. */
  lemma Utf8ComesFirst(f: FileFacts)
    requires f.present && f.isFile && f.decode("utf-8").Some?
    ensures ReadPlaylistFile(f) == Ok(FilterLines(f.decode("utf-8").value))
  {
    assert Encodings[0] == "utf-8";
  }

  /** The existence and kind checks come before any read: when they fail the
      result does not depend on the file's content. */
  lemma ChecksPrecedeReading(f: FileFacts, decode2: string -> Option<seq<string>>)
    requires !f.present || !f.isFile
    ensures ReadPlaylistFile(f) == ReadPlaylistFile(f.(decode := decode2))
    ensures ReadPlaylistFile(f).Err? && !ReadPlaylistFile(f).error.Undecodable?
  {
  }

  // ------------------------------------------------------------- validation

  const MaxFileSize: nat := 10 * 1024 * 1024
  const MaxTracks: nat := 10000

  /** `validate_playlist_file`: the first failing check names the problem. */
  function ValidatePlaylistFile(f: FileFacts): (r: (bool, Option<string>))
    ensures r.0 <==> r.1.None?
    ensures !f.present ==> r.1 == Some("File does not exist")
    ensures f.present && !f.isFile ==> r.1 == Some("Path is not a file")
    ensures f.present && f.isFile && f.size == 0 ==> r.1 == Some("File is empty")
    ensures f.present && f.isFile && f.size > MaxFileSize ==> r.1 == Some("File is too large (max 10MB)")
    ensures ReadPlaylistFile(f).Err? && f.present && f.isFile && 0 < f.size <= MaxFileSize ==>
      r.1 == Some("Could not read file: " + ReadPlaylistFile(f).error.message)
    ensures ReadPlaylistFile(f).Ok? && 0 < f.size <= MaxFileSize ==>
      && (|ReadPlaylistFile(f).value| == 0 ==> r.1 == Some("No valid tracks found in file"))
      && (|ReadPlaylistFile(f).value| > MaxTracks ==> r.1 == Some("Too many tracks (max 10,000 per playlist)"))
  {
    if !f.present then (false, Some("File does not exist"))
    else if !f.isFile then (false, Some("Path is not a file"))
    else if f.size == 0 then (false, Some("File is empty"))
    else if f.size > MaxFileSize then (false, Some("File is too large (max 10MB)"))
    else
      match ReadPlaylistFile(f)
      case Err(e) => (false, Some("Could not read file: " + e.message))
      case Ok(tracks) =>
        if |tracks| == 0 then (false, Some("No valid tracks found in file"))
        else if |tracks| > MaxTracks then (false, Some("Too many tracks (max 10,000 per playlist)"))
        else (true, None)
  }

  /** A file is valid exactly when it is a non-empty regular file of at most
      10 MiB whose reading yields between 1 and 10000 track lines. */
  lemma ValidIffReadable(f: FileFacts)
    ensures ValidatePlaylistFile(f).0 <==>
      && 0 < f.size <= MaxFileSize
      && ReadPlaylistFile(f).Ok?
      && 0 < |ReadPlaylistFile(f).value| <= MaxTracks
  {
  }

  /** The "Could not read file" message of a regular file that no
      encoding decodes carries the reader's decoding error. */
  lemma UndecodableFileMessage(f: FileFacts)
    requires f.present && f.isFile && 0 < f.size <= MaxFileSize
    requires forall j :: 0 <= j < |Encodings| ==> f.decode(Encodings[j]).None?
    ensures ValidatePlaylistFile(f) ==
      (false, Some("Could not read file: Could not decode file " + f.path + " with any supported encoding"))
  {
    var m := "Could not decode file " + f.path + " with any supported encoding";
    assert FirstDecoding(f.decode, Encodings) == |Encodings|;
    assert ReadPlaylistFile(f) == Err(Undecodable(m));
    assert "Could not read file: " + m ==
      "Could not read file: Could not decode file " + f.path + " with any supported encoding";
  }
}
