/** The HLS chain: the master playlist the transcoder writes, the keys uploadDir stores files under, and the
    playlist the gateway serves with every media URI signed (section 4.1 of RFC 8216: a line is blank, a tag or
    comment starting with #, or a URI). */
module Hls {
  import opened Wrappers
  import opened Text
  import opened Decimal

  datatype Rendition = Rendition(name: string, width: int, height: int, videoBitrateKbps: int, audioBitrateKbps: int)

  // ---- playlist.ts: rewriting ------------------------------------------------------------------

  type Sign = string -> string

  // Blank lines, tags and variant playlists stay as they are.
  predicate Kept(line: string) {
    var uri := Trim(line);
    uri == "" || StartsWith(uri, "#") || EndsWith(uri, ".m3u8")
  }

  function RewriteLine(line: string, keyDir: string, sign: Sign): string {
    if Kept(line) then line else sign(keyDir + Trim(line))
  }

  function RewriteLines(lines: seq<string>, keyDir: string, sign: Sign): (r: seq<string>)
    ensures |r| == |lines|
    ensures forall i | 0 <= i < |lines| :: r[i] == RewriteLine(lines[i], keyDir, sign)
  {
    if lines == [] then [] else [RewriteLine(lines[0], keyDir, sign)] + RewriteLines(lines[1..], keyDir, sign)
  }

  function RewritePlaylist(text: string, keyDir: string, sign: Sign): string {
    Join(RewriteLines(Split(text, '\n'), keyDir, sign), "\n")
  }

  // Read back line by line: as many lines; blank lines, tags and variant playlists themselves, and every other line
  // the signed URL of its key.
  lemma {:induction false} RewriteByLine(text: string, keyDir: string, sign: Sign)
    requires forall key {:trigger sign(key)} :: '\n' !in sign(key)
    ensures var before, after := Split(text, '\n'), Split(RewritePlaylist(text, keyDir, sign), '\n');
            && |after| == |before|
            && (forall i | 0 <= i < |before| ::
                  var uri := Trim(before[i]);
                  after[i] == if uri == "" || StartsWith(uri, "#") || EndsWith(uri, ".m3u8") then before[i]
                              else sign(keyDir + uri))
  {
    var before := Split(text, '\n');
    var rewritten := RewriteLines(before, keyDir, sign);
    forall p | p in rewritten ensures '\n' !in p {
      var i :| 0 <= i < |rewritten| && rewritten[i] == p;
      assert before[i] in before;
    }
    SplitOfJoin(rewritten, '\n');
  }

  lemma {:induction false} KeptLinesAreFixed(lines: seq<string>, keyDir: string, sign: Sign)
    requires forall i | 0 <= i < |lines| :: Kept(lines[i])
    ensures RewriteLines(lines, keyDir, sign) == lines
  {
    if lines != [] {
      KeptLinesAreFixed(lines[1..], keyDir, sign);
    }
  }

  // ---- transcode.ts: the master playlist ---------------------------------------------------------

  function StreamTag(r: Rendition): string {
    "#EXT-X-STREAM-INF:BANDWIDTH=" + IntText((r.videoBitrateKbps + r.audioBitrateKbps) * 1000)
    + ",RESOLUTION=" + IntText(r.width) + "x" + IntText(r.height)
  }

  function VariantUri(r: Rendition): string { r.name + "/playlist.m3u8" }

  function MasterLines(renditions: seq<Rendition>): (lines: seq<string>)
    ensures lines != []
  {
    if renditions == [] then ["#EXTM3U", "#EXT-X-VERSION:3"]
    else
      var last := renditions[|renditions| - 1];
      MasterLines(renditions[..|renditions| - 1]) + [StreamTag(last), VariantUri(last)]
  }

  function MasterText(renditions: seq<Rendition>): string {
    Join(MasterLines(renditions), "\n") + "\n"
  }

  method MasterPlaylist(renditions: seq<Rendition>) returns (text: string)
    ensures text == MasterText(renditions)
  {
    hide IntText, Join;
    var lines := ["#EXTM3U", "#EXT-X-VERSION:3"];
    for i := 0 to |renditions|
      invariant lines == MasterLines(renditions[..i])
    {
      var r := renditions[i];
      var bandwidth := (r.videoBitrateKbps + r.audioBitrateKbps) * 1000;
      assert renditions[..i + 1][..i] == renditions[..i];
      lines := lines + [
        "#EXT-X-STREAM-INF:BANDWIDTH=" + IntText(bandwidth) + ",RESOLUTION=" + IntText(r.width) + "x"
            + IntText(r.height),
        r.name + "/playlist.m3u8"];
    }
    assert renditions[..|renditions|] == renditions;
    text := Join(lines, "\n") + "\n";
  }

  lemma {:induction false} TagKept(tag: string)
    requires tag != "" && tag[0] == '#'
    ensures Kept(tag)
  {
    assert TrimStart(tag) == tag;
    var m := TrimEndSplits(tag);
    assert !IsSpace(tag[0]);
    assert Trim(tag) == tag[..m] && tag[..m][0] == '#';
  }

  lemma {:induction false} StreamTagKept(r: Rendition)
    ensures Kept(StreamTag(r)) && '\n' !in StreamTag(r)
  {
    hide Kept, IntText;
    assert StreamTag(r)[0] == '#';
    TagKept(StreamTag(r));
  }

  lemma {:induction false} VariantUriKept(r: Rendition)
    ensures Kept(VariantUri(r))
  {
    var uri := VariantUri(r);
    var k := TrimStartSplits(uri);
    var t := TrimStart(uri);
    assert uri[|r.name|] == '/';
    assert !IsSpace(uri[|r.name|]);
    assert t == uri[k..] && t[|t| - 1] == '8';
    assert Trim(uri) == t;
    assert t[|t| - 5..] == uri[|uri| - 5..] == ".m3u8";
  }

  lemma {:induction false} VariantUriIsOneLine(r: Rendition)
    requires '\n' !in r.name
    ensures '\n' !in VariantUri(r)
  {
    assert '\n' !in "/playlist.m3u8";
  }

  predicate AllKept(lines: seq<string>) {
    forall i | 0 <= i < |lines| :: Kept(lines[i]) && '\n' !in lines[i]
  }

  lemma {:induction false} AllKeptAppend(lines: seq<string>, a: string, b: string)
    requires AllKept(lines) && AllKept([a]) && AllKept([b])
    ensures AllKept(lines + [a, b])
  {
    assert Kept([a][0]) && Kept([b][0]);
  }

  lemma {:induction false} MasterLinesKept(renditions: seq<Rendition>)
    requires forall r | r in renditions :: '\n' !in r.name
    ensures AllKept(MasterLines(renditions))
    decreases |renditions|
  {
    hide Kept, StreamTag, VariantUri;
    if renditions == [] {
      TagKept("#EXTM3U");
      TagKept("#EXT-X-VERSION:3");
    } else {
      var n := |renditions| - 1;
      MasterLinesKept(renditions[..n]);
      StreamTagKept(renditions[n]);
      VariantUriKept(renditions[n]);
      VariantUriIsOneLine(renditions[n]);
      AllKeptAppend(MasterLines(renditions[..n]), StreamTag(renditions[n]), VariantUri(renditions[n]));
    }
  }

  lemma {:induction false} MasterSplits(renditions: seq<Rendition>)
    requires forall r | r in renditions :: '\n' !in r.name
    ensures Split(MasterText(renditions), '\n') == MasterLines(renditions) + [""]
  {
    hide Kept;
    var lines := MasterLines(renditions);
    MasterLinesKept(renditions);
    JoinTrailing(lines);
    SplitOfJoin(lines + [""], '\n');
  }

  lemma {:induction false} JoinTrailing(lines: seq<string>)
    requires lines != []
    ensures Join(lines, "\n") + "\n" == Join(lines + [""], "\n")
  {
    if |lines| == 1 {
      assert (lines + [""])[1..] == [""];
    } else {
      JoinTrailing(lines[1..]);
      assert (lines + [""])[1..] == lines[1..] + [""];
    }
  }

  // The generated master playlist passes the gateway unchanged, whatever directory and signer.
  lemma {:induction false} MasterIsFixed(renditions: seq<Rendition>, keyDir: string, sign: Sign)
    requires forall r | r in renditions :: '\n' !in r.name
    ensures RewritePlaylist(MasterText(renditions), keyDir, sign) == MasterText(renditions)
  {
    MasterSplits(renditions);
    MasterLinesKept(renditions);
    KeptLinesAreFixed(MasterLines(renditions) + [""], keyDir, sign);
    JoinOfSplit(MasterText(renditions), '\n');
  }

  // ---- storage.ts: where uploadDir stores a file ----------------------------------------------------

  datatype DirEntry = DirEntry(parentPath: string, name: string, isFile: bool)

  function KeyOf(dir: string, keyPrefix: string, e: DirEntry): string
    requires |dir| < |e.parentPath + "/" + e.name|
  {
    keyPrefix + "/" + (e.parentPath + "/" + e.name)[|dir| + 1..]
  }

  // readdir lists what lies in or below dir.
  predicate Below(dir: string, e: DirEntry) { e.parentPath == dir || StartsWith(e.parentPath, dir + "/") }

  function KeysOf(dir: string, keyPrefix: string, entries: seq<DirEntry>): seq<string>
    requires forall e | e in entries :: Below(dir, e)
  {
    if entries == [] then []
    else
      var last := entries[|entries| - 1];
      assert last in entries && Below(dir, last);
      KeysOf(dir, keyPrefix, entries[..|entries| - 1]) + (if last.isFile then [KeyOf(dir, keyPrefix, last)] else [])
  }

  function Path(e: DirEntry): string { e.parentPath + "/" + e.name }

  function Files(entries: seq<DirEntry>): (r: seq<DirEntry>)
    ensures forall e :: e in r <==> e in entries && e.isFile
  {
    if entries == [] then []
    else
      var last := entries[|entries| - 1];
      Files(entries[..|entries| - 1]) + (if last.isFile then [last] else [])
  }

  // The path of an entry is read back out of its key.
  predicate KeyNames(dir: string, keyPrefix: string, key: string, e: DirEntry) {
    StartsWith(key, keyPrefix + "/") && dir + "/" + key[|keyPrefix| + 1..] == Path(e)
  }

  lemma {:induction false} KeyOfNames(dir: string, keyPrefix: string, e: DirEntry)
    requires Below(dir, e)
    ensures KeyNames(dir, keyPrefix, KeyOf(dir, keyPrefix, e), e)
  {
    var abs, key := Path(e), KeyOf(dir, keyPrefix, e);
    assert abs[..|dir| + 1] == dir + "/" by {
      if e.parentPath != dir {
        assert abs[..|dir| + 1] == e.parentPath[..|dir| + 1];
      }
    }
    assert abs == abs[..|dir| + 1] + abs[|dir| + 1..];
    assert key[|keyPrefix| + 1..] == abs[|dir| + 1..];
    assert key[..|keyPrefix| + 1] == keyPrefix + "/";
  }

  // One key per file, in the order they were listed, each naming its own file.
  lemma {:induction false} KeysNameFiles(dir: string, keyPrefix: string, entries: seq<DirEntry>)
    requires forall e | e in entries :: Below(dir, e)
    ensures var keys, files := KeysOf(dir, keyPrefix, entries), Files(entries);
            |keys| == |files|
            && forall i | 0 <= i < |keys| :: keys[i] == KeyOf(dir, keyPrefix, files[i])
                && KeyNames(dir, keyPrefix, keys[i], files[i])
    decreases |entries|
  {
    hide KeyNames, KeyOf, Below;
    if entries != [] {
      var n := |entries| - 1;
      KeysNameFiles(dir, keyPrefix, entries[..n]);
      KeyOfNames(dir, keyPrefix, entries[n]);
    }
  }

  // A key is returned exactly for the files listed, and names only one path.
  lemma {:induction false} UploadedIff(dir: string, keyPrefix: string, entries: seq<DirEntry>, key: string)
    requires forall e | e in entries :: Below(dir, e)
    ensures key in KeysOf(dir, keyPrefix, entries) <==>
              exists e :: e in entries && e.isFile && KeyNames(dir, keyPrefix, key, e)
  {
    KeysNameFiles(dir, keyPrefix, entries);
    var keys, files := KeysOf(dir, keyPrefix, entries), Files(entries);
    hide KeysOf, KeyOf, Files, Below;
    if e :| e in entries && e.isFile && KeyNames(dir, keyPrefix, key, e) {
      assert e in files;
      var i :| 0 <= i < |files| && files[i] == e;
      SameNameSameKey(dir, keyPrefix, key, keys[i], e);
    }
    if key in keys {
      var i :| 0 <= i < |keys| && keys[i] == key;
      assert files[i] in files;
    }
  }

  lemma {:induction false} SameNameSameKey(dir: string, keyPrefix: string, a: string, b: string, e: DirEntry)
    requires KeyNames(dir, keyPrefix, a, e) && KeyNames(dir, keyPrefix, b, e)
    ensures a == b
  {
    var n, m := |keyPrefix| + 1, |dir| + 1;
    assert a[n..] == Path(e)[m..] == b[n..];
    assert a == a[..n] + a[n..] && b == b[..n] + b[n..];
  }

  method UploadDir(dir: string, keyPrefix: string, entries: seq<DirEntry>) returns (keys: seq<string>)
    requires forall e | e in entries :: Below(dir, e)
    ensures keys == KeysOf(dir, keyPrefix, entries)
    ensures |keys| == |Files(entries)|
    ensures forall i | 0 <= i < |keys| :: KeyNames(dir, keyPrefix, keys[i], Files(entries)[i])
  {
    keys := [];
    for i := 0 to |entries|
      invariant keys == KeysOf(dir, keyPrefix, entries[..i])
    {
      var entry := entries[i];
      assert entries[..i + 1][..i] == entries[..i];
      assert Below(dir, entry);
      if entry.isFile {
        var abs := entry.parentPath + "/" + entry.name;
        var rel := abs[|dir| + 1..];
        keys := keys + [keyPrefix + "/" + rel];
      }
    }
    assert entries[..|entries|] == entries;
    KeysNameFiles(dir, keyPrefix, entries);
  }

  // ---- The chain ------------------------------------------------------------------------------------

  function KeyPrefix(jobId: string): string { "processed/" + jobId }

  function PlaylistKey(jobId: string): string { KeyPrefix(jobId) + "/master.m3u8" }

  // path.join(outRoot, name) for a name without slashes; None is the directory above outRoot.
  function RenditionDir(outRoot: string, name: string): Option<string>
    requires '/' !in name
  {
    if name == "" || name == "." then Some(outRoot)
    else if name == ".." then None
    else Some(outRoot + "/" + name)
  }

  // The key a file the transcoder wrote for this rendition ends up under; None when uploadDir never lists it.
  function StoredKey(outRoot: string, jobId: string, name: string, file: string): Option<string>
    requires '/' !in name
  {
    match RenditionDir(outRoot, name)
    case None => None
    case Some(dir) => Some(KeyOf(outRoot, KeyPrefix(jobId), DirEntry(dir, file, true)))
  }

  // fetchHlsPlaylist: the object it reads for a request path, and the directory media URIs are signed under.
  datatype Fetch = Refused(status: nat) | Fetched(key: string, keyDir: string)

  function WithoutMaster(key: string): string {
    if EndsWith(key, "master.m3u8") then key[..|key| - 11] else key
  }

  function FetchPlaylist(playlistStorageKey: string, rest: string): Fetch {
    if !EndsWith(rest, ".m3u8") then Refused(404)
    else if Contains(rest, "..") || Contains(rest, "//") then Refused(400)
    else
      var key := WithoutMaster(playlistStorageKey) + rest;
      Fetched(key, key[..LastIndexOf(key, '/') + 1])
  }

  // The request for a rendition's playlist reads the object the transcoder stored, and every segment of it
  // is signed under the key that segment was stored at.
  ghost predicate Playable(outRoot: string, jobId: string, name: string)
    requires '/' !in name
  {
    var fetch := FetchPlaylist(PlaylistKey(jobId), name + "/playlist.m3u8");
    && fetch.Fetched?
    && Some(fetch.key) == StoredKey(outRoot, jobId, name, "playlist.m3u8")
    && (forall segment: string :: Some(fetch.keyDir + segment) == StoredKey(outRoot, jobId, name, segment))
  }

  predicate SafeName(name: string) { name != "" && name != "." && !Contains(name, "..") }

  lemma {:induction false} MasterPrefix(jobId: string)
    ensures WithoutMaster(PlaylistKey(jobId)) == KeyPrefix(jobId) + "/"
  {
    var key := PlaylistKey(jobId);
    assert key[|key| - 11..] == "master.m3u8";
    assert key[..|key| - 11] == KeyPrefix(jobId) + "/";
  }

  // What the gateway serves itself: playlists only, and no way out of the directory.
  lemma FetchedIff(playlistStorageKey: string, rest: string)
    ensures var fetch := FetchPlaylist(playlistStorageKey, rest);
            && (fetch == Refused(404) <==> !EndsWith(rest, ".m3u8"))
            && (fetch == Refused(400) <==> EndsWith(rest, ".m3u8") && (Contains(rest, "..") || Contains(rest, "//")))
            && (fetch.Fetched? <==> EndsWith(rest, ".m3u8") && !Contains(rest, "..") && !Contains(rest, "//"))
  {
  }

  lemma {:induction false} VariantSuffix(name: string)
    ensures EndsWith(name + "/playlist.m3u8", ".m3u8")
  {
    var rest := name + "/playlist.m3u8";
    assert rest[|rest| - 5..] == ".m3u8";
  }

  lemma {:induction false} VariantSlashes(name: string)
    requires '/' !in name
    ensures !Contains(name + "/playlist.m3u8", "//")
  {
    var rest := name + "/playlist.m3u8";
    ContainsPair(rest, '/', '/');
    assert forall i | 0 <= i < |name| :: rest[i] == name[i];
    assert forall i | |name| < i < |rest| :: rest[i] == "playlist.m3u8"[i - |name| - 1];
  }

  lemma {:induction false} VariantDots(name: string)
    ensures Contains(name + "/playlist.m3u8", "..") <==> Contains(name, "..")
  {
    var rest := name + "/playlist.m3u8";
    ContainsPair(rest, '.', '.');
    ContainsPair(name, '.', '.');
    hide Contains;
    assert forall i | 0 <= i < |name| :: rest[i] == name[i];
    assert forall i | |name| <= i < |rest| :: rest[i] == "/playlist.m3u8"[i - |name|];
  }

  lemma {:induction false} VariantPath(name: string)
    requires '/' !in name
    ensures EndsWith(name + "/playlist.m3u8", ".m3u8")
    ensures !Contains(name + "/playlist.m3u8", "//")
    ensures Contains(name + "/playlist.m3u8", "..") <==> Contains(name, "..")
  {
    hide Contains, EndsWith;
    VariantSuffix(name);
    VariantSlashes(name);
    VariantDots(name);
  }

  lemma {:induction false} KeyDirOf(head: string)
    ensures var key := head + "/playlist.m3u8"; key[..LastIndexOf(key, '/') + 1] == head + "/"
  {
    var key := head + "/playlist.m3u8";
    assert key == head + ['/'] + "playlist.m3u8";
    LastIndexOfField(head, '/', "playlist.m3u8");
    hide LastIndexOf;
    assert key[..|head| + 1] == head + "/";
  }

  lemma {:induction false} FetchVariant(jobId: string, name: string)
    requires '/' !in name && !Contains(name, "..")
    ensures FetchPlaylist(PlaylistKey(jobId), name + "/playlist.m3u8")
            == Fetched(KeyPrefix(jobId) + "/" + name + "/playlist.m3u8", KeyPrefix(jobId) + "/" + name + "/")
  {
    hide Contains, EndsWith, KeyPrefix, PlaylistKey, WithoutMaster, LastIndexOf;
    VariantPath(name);
    MasterPrefix(jobId);
    var head := KeyPrefix(jobId) + "/" + name;
    assert KeyPrefix(jobId) + "/" + (name + "/playlist.m3u8") == head + "/playlist.m3u8";
    KeyDirOf(head);
  }

  lemma {:induction false} StoredUnderName(outRoot: string, jobId: string, name: string, file: string)
    requires '/' !in name && name != ".."
    ensures StoredKey(outRoot, jobId, name, file)
            == Some(KeyPrefix(jobId) + "/" + (if name == "" || name == "." then file else name + "/" + file))
  {
    var abs := RenditionDir(outRoot, name).value + "/" + file;
    if name == "" || name == "." {
      assert abs[|outRoot| + 1..] == file;
    } else {
      assert abs[|outRoot| + 1..] == name + "/" + file;
    }
  }

  lemma {:induction false} SafeNameIsPlayable(outRoot: string, jobId: string, name: string)
    requires '/' !in name && SafeName(name) && name != ".."
    ensures Playable(outRoot, jobId, name)
  {
    hide Contains, FetchPlaylist, KeyPrefix, RenditionDir, KeyOf;
    FetchVariant(jobId, name);
    var head := KeyPrefix(jobId) + "/";
    forall file: string ensures Some(head + name + "/" + file) == StoredKey(outRoot, jobId, name, file) {
      StoredUnderName(outRoot, jobId, name, file);
      assert head + name + "/" + file == head + (name + "/" + file);
    }
    assert head + name + "/playlist.m3u8" == head + name + "/" + "playlist.m3u8";
  }

  // For names without a slash the chain holds exactly when the name survives path.join and the gateway's check.
  lemma {:induction false} PlayableIffSafeName(outRoot: string, jobId: string, name: string)
    requires '/' !in name
    ensures Playable(outRoot, jobId, name) <==> SafeName(name)
  {
    VariantPath(name);
    ContainsPair(name, '.', '.');
    assert name == ".." ==> name[0] == '.' && name[1] == '.';
    if SafeName(name) {
      SafeNameIsPlayable(outRoot, jobId, name);
    } else if !Contains(name, "..") {
      FetchVariant(jobId, name);
      StoredUnderName(outRoot, jobId, name, "playlist.m3u8");
      var head := KeyPrefix(jobId) + "/";
      assert |head + name + "/playlist.m3u8"| > |head + "playlist.m3u8"|;
    }
  }

  lemma {:induction false} UnplayableNames(outRoot: string, jobId: string)
    ensures !Playable(outRoot, jobId, "") && !Playable(outRoot, jobId, ".") && !Playable(outRoot, jobId, "720p..hq")
  {
    PlayableIffSafeName(outRoot, jobId, "");
    PlayableIffSafeName(outRoot, jobId, ".");
    ContainsPair("720p..hq", '.', '.');
    assert "720p..hq"[4] == '.' && "720p..hq"[5] == '.';
    PlayableIffSafeName(outRoot, jobId, "720p..hq");
  }

  // ---- From the master playlist to the variants ---------------------------------------------------------

  datatype StreamInfo = StreamInfo(bandwidth: int, width: int, height: int)

  // Reads a stream tag with a BANDWIDTH and a RESOLUTION (sections 4.2 and 4.3.4.2 of RFC 8216).
  function ReadStreamTag(tag: string): Option<StreamInfo> {
    if !StartsWith(tag, "#EXT-X-STREAM-INF:") then None
    else
      var attributes := Split(tag[18..], ',');
      if |attributes| != 2 || !StartsWith(attributes[0], "BANDWIDTH=")
          || !StartsWith(attributes[1], "RESOLUTION=") then None
      else
        var size := Split(attributes[1][11..], 'x');
        if |size| != 2 then None
        else
          var bandwidth, width, height := IntValue(attributes[0][10..]), IntValue(size[0]), IntValue(size[1]);
          if bandwidth.None? || width.None? || height.None? then None
          else Some(StreamInfo(bandwidth.value, width.value, height.value))
  }

  lemma {:induction false} TagSplits(bandwidth: string, width: string, height: string)
    requires ',' !in bandwidth + width + height && 'x' !in width + height
    ensures Split("BANDWIDTH=" + bandwidth + ",RESOLUTION=" + width + "x" + height, ',')
            == ["BANDWIDTH=" + bandwidth, "RESOLUTION=" + width + "x" + height]
    ensures Split(width + "x" + height, 'x') == [width, height]
  {
    var first, second := "BANDWIDTH=" + bandwidth, "RESOLUTION=" + width + "x" + height;
    assert first + [','] + second == "BANDWIDTH=" + bandwidth + ",RESOLUTION=" + width + "x" + height;
    assert ',' !in first && ',' !in second;
    SplitField(first, ',', second);
    SplitAtom(second, ',');
    assert width + ['x'] + height == width + "x" + height;
    SplitField(width, 'x', height);
    SplitAtom(height, 'x');
  }

  lemma {:induction false} ReadTagText(bandwidth: string, width: string, height: string)
    requires ',' !in bandwidth + width + height && 'x' !in width + height
    requires IntValue(bandwidth).Some? && IntValue(width).Some? && IntValue(height).Some?
    ensures ReadStreamTag("#EXT-X-STREAM-INF:BANDWIDTH=" + bandwidth + ",RESOLUTION=" + width + "x" + height)
            == Some(StreamInfo(IntValue(bandwidth).value, IntValue(width).value, IntValue(height).value))
  {
    hide Split, IntValue;
    TagSplits(bandwidth, width, height);
    var tag := "#EXT-X-STREAM-INF:BANDWIDTH=" + bandwidth + ",RESOLUTION=" + width + "x" + height;
    assert tag[..18] == "#EXT-X-STREAM-INF:";
    assert tag[18..] == "BANDWIDTH=" + bandwidth + ",RESOLUTION=" + width + "x" + height;
    var first, second := "BANDWIDTH=" + bandwidth, "RESOLUTION=" + width + "x" + height;
    assert first[..10] == "BANDWIDTH=" && first[10..] == bandwidth;
    assert second[..11] == "RESOLUTION=" && second[11..] == width + "x" + height;
  }

  // A rendition's tag says its size and its total bandwidth in bits per second.
  lemma {:induction false} StreamTagReads(r: Rendition)
    ensures ReadStreamTag(StreamTag(r))
            == Some(StreamInfo(1000 * (r.videoBitrateKbps + r.audioBitrateKbps), r.width, r.height))
  {
    IntRoundTrip((r.videoBitrateKbps + r.audioBitrateKbps) * 1000);
    IntRoundTrip(r.width);
    IntRoundTrip(r.height);
    hide IntText, IntValue;
    ReadTagText(IntText((r.videoBitrateKbps + r.audioBitrateKbps) * 1000), IntText(r.width), IntText(r.height));
  }

  lemma {:induction false} MasterLineAt(renditions: seq<Rendition>, i: nat)
    requires i < |renditions|
    ensures |MasterLines(renditions)| == 2 * |renditions| + 2
    ensures MasterLines(renditions)[2 * i + 2] == StreamTag(renditions[i])
    ensures MasterLines(renditions)[2 * i + 3] == VariantUri(renditions[i])
    decreases |renditions|
  {
    hide StreamTag, VariantUri;
    var n := |renditions| - 1;
    MasterLength(renditions[..n]);
    if i < n { MasterLineAt(renditions[..n], i); }
  }

  lemma {:induction false} MasterLength(renditions: seq<Rendition>)
    ensures |MasterLines(renditions)| == 2 * |renditions| + 2
    ensures MasterLines(renditions)[..2] == ["#EXTM3U", "#EXT-X-VERSION:3"]
    decreases |renditions|
  {
    if renditions != [] { MasterLength(renditions[..|renditions| - 1]); }
  }

  lemma {:induction false} VariantIsStored(outRoot: string, jobId: string, r: Rendition)
    requires '/' !in r.name && SafeName(r.name)
    ensures var fetch := FetchPlaylist(PlaylistKey(jobId), VariantUri(r));
            fetch.Fetched? && Some(fetch.key) == StoredKey(outRoot, jobId, r.name, "playlist.m3u8")
  {
    PlayableIffSafeName(outRoot, jobId, r.name);
    hide FetchPlaylist, StoredKey, SafeName, PlaylistKey, KeyPrefix;
  }

  // Following the master playlist: for each rendition there is a stream tag that says its size and bandwidth, and the
  // line after it is a request the gateway answers with the variant playlist the transcoder stored for it.
  lemma {:induction false} MasterLeadsToVariants(outRoot: string, jobId: string, renditions: seq<Rendition>, i: nat)
    requires i < |renditions| && (forall r | r in renditions :: '\n' !in r.name)
    requires '/' !in renditions[i].name && SafeName(renditions[i].name)
    ensures var lines, r := Split(MasterText(renditions), '\n'), renditions[i];
            && |lines| == 2 * |renditions| + 3 && lines[..2] == ["#EXTM3U", "#EXT-X-VERSION:3"]
            && ReadStreamTag(lines[2 * i + 2])
               == Some(StreamInfo(1000 * (r.videoBitrateKbps + r.audioBitrateKbps), r.width, r.height))
            && var fetch := FetchPlaylist(PlaylistKey(jobId), lines[2 * i + 3]);
               fetch.Fetched? && Some(fetch.key) == StoredKey(outRoot, jobId, r.name, "playlist.m3u8")
  {
    var r := renditions[i];
    MasterSplits(renditions);
    MasterLength(renditions);
    MasterLineAt(renditions, i);
    StreamTagReads(r);
    VariantIsStored(outRoot, jobId, r);
    hide *;
    assert Split(MasterText(renditions), '\n')[..2] == MasterLines(renditions)[..2];
    assert Split(MasterText(renditions), '\n')[2 * i + 2] == StreamTag(r);
    assert Split(MasterText(renditions), '\n')[2 * i + 3] == VariantUri(r);
  }

  // Whatever the transcoder wrote for a rendition, uploadDir returns the key called its stored key above.
  lemma {:induction false} StoredKeyIsUploaded(outRoot: string, jobId: string, name: string, file: string,
                                               entries: seq<DirEntry>)
    requires '/' !in name && name != ".." && forall e | e in entries :: Below(outRoot, e)
    requires DirEntry(RenditionDir(outRoot, name).value, file, true) in entries
    ensures StoredKey(outRoot, jobId, name, file).Some?
    ensures StoredKey(outRoot, jobId, name, file).value in KeysOf(outRoot, KeyPrefix(jobId), entries)
  {
    var e := DirEntry(RenditionDir(outRoot, name).value, file, true);
    KeyOfNames(outRoot, KeyPrefix(jobId), e);
    UploadedIff(outRoot, KeyPrefix(jobId), entries, KeyOf(outRoot, KeyPrefix(jobId), e));
    hide KeyNames, KeysOf, KeyOf;
  }

  lemma {:induction false} UnderOwnPrefix(jobId: string, rest: string)
    ensures StartsWith(KeyPrefix(jobId) + "/" + rest, "processed/" + jobId + "/")
  {
    assert (KeyPrefix(jobId) + "/" + rest)[..|"processed/" + jobId + "/"|] == "processed/" + jobId + "/";
  }

  lemma Regroup(head: string, name: string, file: string)
    ensures head + "/" + name + "/" + file == head + "/" + (name + "/" + file)
  {
  }

  // A served media line of a safe rendition is the signed URL of a key uploadDir returned, that of the segment
  // the line names, under the job's own prefix.
  lemma {:induction false} SegmentSignedUnderStoredKey(outRoot: string, jobId: string, name: string, line: string,
                                                       entries: seq<DirEntry>, sign: Sign)
    requires '/' !in name && SafeName(name) && !Kept(line) && forall e | e in entries :: Below(outRoot, e)
    requires DirEntry(outRoot + "/" + name, Trim(line), true) in entries
    ensures var fetch := FetchPlaylist(PlaylistKey(jobId), name + "/playlist.m3u8");
            && fetch.Fetched?
            && var key := fetch.keyDir + Trim(line);
               && RewriteLine(line, fetch.keyDir, sign) == sign(key)
               && key in KeysOf(outRoot, KeyPrefix(jobId), entries)
               && KeyNames(outRoot, KeyPrefix(jobId), key, DirEntry(outRoot + "/" + name, Trim(line), true))
               && StartsWith(key, "processed/" + jobId + "/")
  {
    var e := DirEntry(outRoot + "/" + name, Trim(line), true);
    SafeIsNotUp(name);
    hide Trim, Contains, KeysOf, KeyOf, FetchPlaylist, PlaylistKey, Kept, SafeName, KeyNames, StartsWith, Below;
    FetchVariant(jobId, name);
    StoredKeyIsUploaded(outRoot, jobId, name, Trim(line), entries);
    StoredUnderName(outRoot, jobId, name, Trim(line));
    assert StoredKey(outRoot, jobId, name, Trim(line)) == Some(KeyOf(outRoot, KeyPrefix(jobId), e));
    KeyOfNames(outRoot, KeyPrefix(jobId), e);
    UnderOwnPrefix(jobId, name + "/" + Trim(line));
    hide StoredKey, KeyPrefix, RenditionDir;
    Regroup(KeyPrefix(jobId), name, Trim(line));
  }

  lemma {:induction false} SafeIsNotUp(name: string)
    requires SafeName(name)
    ensures name != "" && name != "." && name != ".." && !Contains(name, "..")
  {
    ContainsPair("..", '.', '.');
    assert ".."[0] == '.' && ".."[1] == '.';
  }

  // A whole variant playlist as served: the object read is one uploadDir returned, and each line is either as
  // it was or the signed URL of the uploaded key of the segment it names.
  lemma {:induction false} ServedVariantIsUploaded(outRoot: string, jobId: string, name: string, text: string,
                                                   entries: seq<DirEntry>, sign: Sign)
    requires '/' !in name && SafeName(name) && forall e | e in entries :: Below(outRoot, e)
    requires DirEntry(outRoot + "/" + name, "playlist.m3u8", true) in entries
    requires forall line | line in Split(text, '\n') && !Kept(line) ::
               DirEntry(outRoot + "/" + name, Trim(line), true) in entries
    requires forall key {:trigger sign(key)} :: '\n' !in sign(key)
    ensures var fetch := FetchPlaylist(PlaylistKey(jobId), name + "/playlist.m3u8");
            && fetch.Fetched? && fetch.key in KeysOf(outRoot, KeyPrefix(jobId), entries)
            && var before := Split(text, '\n');
               var after := Split(RewritePlaylist(text, fetch.keyDir, sign), '\n');
               && |after| == |before|
               && forall i | 0 <= i < |before| ::
                    if Kept(before[i]) then after[i] == before[i]
                    else
                      && after[i] == sign(fetch.keyDir + Trim(before[i]))
                      && fetch.keyDir + Trim(before[i]) in KeysOf(outRoot, KeyPrefix(jobId), entries)
  {
    SafeIsNotUp(name);
    hide Trim, Contains, KeysOf, FetchPlaylist, Kept, SafeName, RewritePlaylist, Split;
    FetchVariant(jobId, name);
    StoredKeyIsUploaded(outRoot, jobId, name, "playlist.m3u8", entries);
    StoredUnderName(outRoot, jobId, name, "playlist.m3u8");
    var fetch := FetchPlaylist(PlaylistKey(jobId), name + "/playlist.m3u8");
    var head := KeyPrefix(jobId) + "/";
    assert head + name + "/playlist.m3u8" == head + (name + "/playlist.m3u8");
    assert name + "/" + "playlist.m3u8" == name + "/playlist.m3u8";
    RewriteByLine(text, fetch.keyDir, sign);
    var before := Split(text, '\n');
    forall i | 0 <= i < |before| && !Kept(before[i])
      ensures fetch.keyDir + Trim(before[i]) in KeysOf(outRoot, KeyPrefix(jobId), entries)
    {
      SegmentSignedUnderStoredKey(outRoot, jobId, name, before[i], entries, sign);
    }
  }
}
