/**
 * WriteZipToTar (src/registry-buddy/archive/archive.go:118-234): the entries of a zip, filtered and written to a
 * tar writer that may fail on any call.
 */
module ZipToTar {
  import opened Common

  /** Bytes are characters here, because a symlink's content becomes its target. */
  type Bytes = string

  datatype Error = Error(message: string)

  // ---- Zip files and tar headers -----------------------------------------------------------------------------

  datatype Kind = Regular | Directory | Symlink | Special(supported: bool)

  /**
   * Opening fails with `openError`; otherwise reading gives `content` and then `readError`, if any. `size` is the
   * uncompressed size the zip declares, whatever is read.
   */
  datatype ZipFile = ZipFile(
    name: string, kind: Kind, tarMode: int, creatorVersion: nat, modTime: int, size: nat,
    openError: Option<Error>, content: Bytes, readError: Option<Error>)

  datatype TarHeader = TarHeader(
    name: string, linkname: string, mode: int, uid: int, gid: int, uname: string, gname: string,
    modTime: int, kind: Kind, size: nat)

  datatype TarEntry = TarEntry(header: TarHeader, body: Bytes)

  /** The arguments of WriteZipToTar; `join` is filepath.Join with forward slashes. */
  datatype Options = Options(
    basePath: string, uid: int, gid: int, mode: int, normalizeModTime: bool,
    fileFilter: Option<string -> bool>, join: (string, string) -> string)

  /** 1980-01-01T00:00:01Z in Unix seconds. */
  const NORMALIZED_DATE_TIME := 315532801
  const KEEP_MODE := -1
  const ALL_PERMISSIONS := 0x1FF // 0777
  const COPY_BUFFER := 32768

  /** Lines 198-207: `CreatorVersion >> 8` is FAT or VFAT. */
  predicate IsFatFile(creatorVersion: nat) {
    var host := creatorVersion / 0x100;
    host == 0 || host == 14
  }

  // ---- What each selected file becomes -----------------------------------------------------------------------

  predicate Selects(q: Options, f: ZipFile) {
    q.fileFilter.None? || q.fileFilter.value(f.name)
  }

  function Selected(files: seq<ZipFile>, q: Options): seq<ZipFile> {
    if files == [] then [] else
    var rest, f := Selected(files[..|files| - 1], q), files[|files| - 1];
    if Selects(q, f) then rest + [f] else rest
  }

  /** The file itself makes the conversion fail. A symlink that cannot be opened does not. */
  predicate Faulty(f: ZipFile) {
    match f.kind
    case Regular => f.openError.Some? || f.readError.Some?
    case Directory => false
    case Symlink => f.openError.None? && f.readError.Some?
    case Special(supported) => !supported
  }

  function ImageHeader(f: ZipFile, q: Options): TarHeader {
    TarHeader(
      q.join(q.basePath, f.name),
      if f.kind.Symlink? && f.openError.None? then f.content else "",
      if IsFatFile(f.creatorVersion) then ALL_PERMISSIONS else if q.mode == KEEP_MODE then f.tarMode else q.mode,
      q.uid, q.gid, "", "",
      if q.normalizeModTime then NORMALIZED_DATE_TIME else f.modTime,
      f.kind,
      if f.kind.Regular? then f.size else 0)
  }

  function Image(f: ZipFile, q: Options): TarEntry {
    TarEntry(ImageHeader(f, q), if f.kind.Regular? then f.content else "")
  }

  function Images(files: seq<ZipFile>, q: Options): seq<TarEntry> {
    seq(|files|, i requires 0 <= i < |files| => Image(files[i], q))
  }

  /** Something of an entry: its header, and the body cut short. */
  predicate PartOf(part: TarEntry, whole: TarEntry) {
    part.header == whole.header && part.body <= whole.body
  }

  /** The images of the first n selected files, and at most a part of the next. */
  predicate Interrupted(entries: seq<TarEntry>, selected: seq<ZipFile>, q: Options, n: nat) {
    n < |selected| &&
    (entries == Images(selected[..n], q) ||
     (|entries| == n + 1 && entries[..n] == Images(selected[..n], q) && PartOf(entries[n], Image(selected[n], q))))
  }

  // ---- What an archive must hold, spelled out ----------------------------------------------------------------

  /** The positions of the files the filter accepts; without a filter, of all files. */
  ghost function AcceptedBy(fileFilter: Option<string -> bool>, files: seq<ZipFile>): set<nat> {
    set i: nat | i < |files| && (fileFilter.None? || fileFilter.value(files[i].name))
  }

  /** Each field of an entry from its file: 0777 exactly for files made on FAT (host 0) or VFAT (host 14). */
  ghost predicate EntryOf(entry: TarEntry, f: ZipFile, q: Options) {
    var h, host := entry.header, f.creatorVersion / 256;
    && h.name == q.join(q.basePath, f.name)
    && h.uid == q.uid && h.gid == q.gid && h.uname == "" && h.gname == ""
    && h.mode == (if host == 0 || host == 14 then 511 else if q.mode == -1 then f.tarMode else q.mode)
    && h.modTime == (if q.normalizeModTime then 315532801 else f.modTime)
    && h.kind == f.kind
    && h.linkname == (if f.kind.Symlink? && f.openError.None? then f.content else "")
    && h.size == (if f.kind.Regular? then f.size else 0)
    && entry.body == (if f.kind.Regular? then f.content else "")
  }

  /** `entries` archives exactly the accepted files, in the order of the zip; `chosen` are their positions. */
  ghost predicate Archives(entries: seq<TarEntry>, files: seq<ZipFile>, q: Options, chosen: seq<nat>) {
    && Ascending(chosen, AcceptedBy(q.fileFilter, files))
    && |entries| == |chosen|
    && forall k :: 0 <= k < |chosen| ==> chosen[k] < |files| && EntryOf(entries[k], files[chosen[k]], q)
  }

  lemma {:induction false} SelectedAreAccepted(files: seq<ZipFile>, q: Options) returns (chosen: seq<nat>)
    ensures Ascending(chosen, AcceptedBy(q.fileFilter, files))
    ensures |Selected(files, q)| == |chosen|
    ensures forall k :: 0 <= k < |chosen| ==> chosen[k] < |files| && Selected(files, q)[k] == files[chosen[k]]
  {
    chosen := [];
    if files != [] {
      var n := |files| - 1;
      chosen := SelectedAreAccepted(files[..n], q);
      var before := AcceptedBy(q.fileFilter, files[..n]);
      if Selects(q, files[n]) {
        AscendingSnoc(chosen, before, n);
        assert AcceptedBy(q.fileFilter, files) == before + {n};
        chosen := chosen + [n];
      } else {
        assert AcceptedBy(q.fileFilter, files) == before;
      }
    }
  }

  /** The images of the selected files are such an archive. */
  lemma ImagesArchive(files: seq<ZipFile>, q: Options) returns (chosen: seq<nat>)
    ensures Archives(Images(Selected(files, q), q), files, q, chosen)
  {
    chosen := SelectedAreAccepted(files, q);
  }

  /** A filter that accepts every name, like no filter, keeps every file. */
  lemma {:induction false} AcceptingFilterKeepsAll(files: seq<ZipFile>, q: Options)
    requires q.fileFilter.Some? ==> forall name :: q.fileFilter.value(name)
    ensures Selected(files, q) == files
  {
    if files != [] {
      AcceptingFilterKeepsAll(files[..|files| - 1], q);
    }
  }

  // ---- Timestamps --------------------------------------------------------------------------------------------

  predicate SameButModTime(f: ZipFile, g: ZipFile) {
    f.(modTime := g.modTime) == g
  }

  /** With normalization, zips that differ only in their timestamps have the same images and the same faults. */
  lemma {:induction false} TimestampsDoNotMatter(fs: seq<ZipFile>, gs: seq<ZipFile>, q: Options)
    requires q.normalizeModTime && |fs| == |gs|
    requires forall i :: 0 <= i < |fs| ==> SameButModTime(fs[i], gs[i])
    ensures Images(Selected(fs, q), q) == Images(Selected(gs, q), q)
    ensures |Selected(fs, q)| == |Selected(gs, q)|
    ensures forall i :: 0 <= i < |Selected(fs, q)| ==> (Faulty(Selected(fs, q)[i]) <==> Faulty(Selected(gs, q)[i]))
  {
    if fs != [] {
      var n := |fs| - 1;
      TimestampsDoNotMatter(fs[..n], gs[..n], q);
      assert SameButModTime(fs[n], gs[n]);
      ImagesSnoc(Selected(fs[..n], q), fs[n], q);
      ImagesSnoc(Selected(gs[..n], q), gs[n], q);
    }
  }

  lemma ImagesSnoc(files: seq<ZipFile>, f: ZipFile, q: Options)
    ensures Images(files + [f], q) == Images(files, q) + [Image(f, q)]
  {}

  // ---- The tar writer ----------------------------------------------------------------------------------------

  /** A call that fails after letting `part` of its bytes through. */
  datatype SinkFault = SinkFault(err: Error, part: nat)

  class TarSink {
    var entries: seq<TarEntry>
    var calls: nat
    const faults: nat -> Option<SinkFault>

    constructor (faults: nat -> Option<SinkFault>)
      ensures entries == [] && calls == 0 && this.faults == faults
    {
      entries, calls, this.faults := [], 0, faults;
    }

    method WriteHeader(header: TarHeader) returns (err: Option<Error>)
      modifies this
      ensures err.None? ==> entries == old(entries) + [TarEntry(header, "")]
      ensures err.Some? ==> entries == old(entries) || entries == old(entries) + [TarEntry(header, "")]
      ensures err.Some? ==> exists n :: faults(n).Some?
    {
      var fault := faults(calls);
      calls := calls + 1;
      if fault.None? || fault.value.part > 0 {
        entries := entries + [TarEntry(header, "")];
      }
      err := if fault.None? then None else Some(fault.value.err);
    }

    method Write(b: Bytes) returns (err: Option<Error>)
      requires entries != []
      modifies this
      ensures |entries| == old(|entries|) && entries[..|entries| - 1] == old(entries[..|entries| - 1])
      ensures entries[|entries| - 1].header == old(entries[|entries| - 1].header)
      ensures err.None? ==> entries[|entries| - 1].body == old(entries[|entries| - 1].body) + b
      ensures err.Some? ==> exists n: nat ::
                n <= |b| && entries[|entries| - 1].body == old(entries[|entries| - 1].body) + b[..n]
      ensures err.Some? ==> exists n :: faults(n).Some?
    {
      var fault := faults(calls);
      calls := calls + 1;
      var last := entries[|entries| - 1];
      var n := if fault.None? || fault.value.part > |b| then |b| else fault.value.part;
      assert b[..|b|] == b;
      entries := entries[..|entries| - 1] + [last.(body := last.body + b[..n])];
      err := if fault.None? then None else Some(fault.value.err);
    }

    /** io.Copy from an opened file: buffer by buffer, until the content or a read error ends it. */
    method Copy(f: ZipFile) returns (err: Option<Error>)
      requires entries != [] && entries[|entries| - 1].body == ""
      modifies this
      ensures |entries| == old(|entries|) && entries[..|entries| - 1] == old(entries[..|entries| - 1])
      ensures entries[|entries| - 1].header == old(entries[|entries| - 1].header)
      ensures entries[|entries| - 1].body <= f.content
      ensures err.None? ==> entries[|entries| - 1].body == f.content && f.readError.None?
      ensures err.Some? ==> f.readError.Some? || exists n :: faults(n).Some?
    {
      var off := 0;
      while off < |f.content|
        invariant off <= |f.content|
        invariant |entries| == old(|entries|) && entries[..|entries| - 1] == old(entries[..|entries| - 1])
        invariant entries[|entries| - 1].header == old(entries[|entries| - 1].header)
        invariant entries[|entries| - 1].body == f.content[..off]
      {
        var next := if |f.content| - off < COPY_BUFFER then |f.content| else off + COPY_BUFFER;
        err := Write(f.content[off..next]);
        if err.Some? {
          var n: nat :| n <= next - off && entries[|entries| - 1].body == f.content[..off] + f.content[off..next][..n];
          assert f.content[..off] + f.content[off..next][..n] == f.content[..off + n];
          return;
        }
        assert f.content[..off] + f.content[off..next] == f.content[..next];
        off := next;
      }
      assert f.content[..off] == f.content;
      err := f.readError;
    }
  }

  // ---- Headers, set field by field ---------------------------------------------------------------------------

  class Header {
    var value: TarHeader

    /** tar.FileInfoHeader for a supported kind; the owner fields of a zip's file info are empty. */
    constructor FileInfo(f: ZipFile, link: string)
      ensures value == TarHeader(f.name, if f.kind.Symlink? then link else "", f.tarMode, 0, 0, "", "", f.modTime,
                                 f.kind, if f.kind.Regular? then f.size else 0)
    {
      value := TarHeader(f.name, if f.kind.Symlink? then link else "", f.tarMode, 0, 0, "", "", f.modTime,
                         f.kind, if f.kind.Regular? then f.size else 0);
    }

    /** Lines 226-234. */
    method Normalize(normalizeModTime: bool)
      modifies this
      ensures value == old(value).(uid := 0, gid := 0, uname := "", gname := "",
                                   modTime := if normalizeModTime then NORMALIZED_DATE_TIME else old(value.modTime))
    {
      if normalizeModTime {
        value := value.(modTime := NORMALIZED_DATE_TIME);
      }
      value := value.(uid := 0);
      value := value.(gid := 0);
      value := value.(uname := "");
      value := value.(gname := "");
    }

    /** Lines 209-216. */
    method Finalize(uid: int, gid: int, mode: int, normalizeModTime: bool)
      modifies this
      ensures value == old(value).(uid := uid, gid := gid, uname := "", gname := "",
                                   mode := if mode == KEEP_MODE then old(value.mode) else mode,
                                   modTime := if normalizeModTime then NORMALIZED_DATE_TIME else old(value.modTime))
    {
      Normalize(normalizeModTime);
      if mode != KEEP_MODE {
        value := value.(mode := mode);
      }
      value := value.(uid := uid);
      value := value.(gid := gid);
    }
  }

  // ---- The loop ----------------------------------------------------------------------------------------------

  /** Lines 132-192, for one selected file. */
  method WriteEntry(tw: TarSink, f: ZipFile, q: Options) returns (err: Option<Error>)
    modifies tw
    ensures err.None? ==> !Faulty(f) && tw.entries == old(tw.entries) + [Image(f, q)]
    ensures err.Some? ==> Faulty(f) || exists n :: tw.faults(n).Some?
    ensures (forall n :: tw.faults(n).None?) ==>
              (err.Some? <==>
                 || (f.kind.Regular? && (f.openError.Some? || f.readError.Some?))
                 || (f.kind.Symlink? && f.openError.None? && f.readError.Some?)
                 || (f.kind.Special? && !f.kind.supported))
    ensures err.Some? ==>
              || tw.entries == old(tw.entries)
              || (|tw.entries| == old(|tw.entries|) + 1 && tw.entries[..old(|tw.entries|)] == old(tw.entries)
                  && PartOf(tw.entries[old(|tw.entries|)], Image(f, q)))
  {
    var fileMode := q.mode;
    if IsFatFile(f.creatorVersion) {
      fileMode := ALL_PERMISSIONS;
    }
    var link := f.name;
    if f.kind.Symlink? {
      link := "";
      if f.openError.None? {
        if f.readError.Some? {
          return f.readError;
        }
        link := f.content;
      }
    }
    if f.kind.Special? && !f.kind.supported {
      return Some(Error("archive/tar: unsupported file mode"));
    }
    var header := new Header.FileInfo(f, link);
    header.value := header.value.(name := q.join(q.basePath, f.name));
    header.Finalize(q.uid, q.gid, fileMode, q.normalizeModTime);
    assert header.value == ImageHeader(f, q);
    err := tw.WriteHeader(header.value);
    if err.Some? {
      return;
    }
    if f.kind.Regular? {
      if f.openError.Some? {
        return f.openError;
      }
      err := tw.Copy(f);
    }
  }

  /**
   * Lines 119-196. Success means that exactly the images of the selected files were added; failure has added the
   * images of a prefix and at most a part of the next entry, and has a faulty file or tar writer as its cause.
   */
  method WriteZipToTar(tw: TarSink, zip: Result<seq<ZipFile>, Error>, q: Options) returns (err: Option<Error>)
    modifies tw
    ensures old(tw.entries) <= tw.entries
    ensures zip.Err? ==> err == Some(zip.error) && tw.entries == old(tw.entries)
    ensures zip.Ok? && err.None? ==>
              && tw.entries[old(|tw.entries|)..] == Images(Selected(zip.value, q), q)
              && forall f :: f in Selected(zip.value, q) ==> !Faulty(f)
    ensures zip.Ok? && err.None? ==>
              exists chosen :: Archives(tw.entries[old(|tw.entries|)..], zip.value, q, chosen)
    ensures zip.Ok? && err.Some? ==>
              && (exists n :: Interrupted(tw.entries[old(|tw.entries|)..], Selected(zip.value, q), q, n))
              && ((exists f :: f in Selected(zip.value, q) && Faulty(f)) || exists n :: tw.faults(n).Some?)
  {
    if zip.Err? {
      return Some(zip.error);
    }
    var files := zip.value;
    ghost var start := |tw.entries|;
    err := None;
    for i := 0 to |files|
      invariant err.None?
      invariant old(tw.entries) <= tw.entries
      invariant tw.entries[start..] == Images(Selected(files[..i], q), q)
      invariant forall f :: f in Selected(files[..i], q) ==> !Faulty(f)
    {
      ghost var before, added := Selected(files[..i], q), tw.entries[start..];
      assert files[..i + 1][..i] == files[..i];
      if !Selects(q, files[i]) {
        continue;
      }
      ImagesSnoc(before, files[i], q);
      err := WriteEntry(tw, files[i], q);
      if err.Some? {
        SelectedPrefix(files, i, q);
        assert tw.entries[start..] == added || tw.entries[start..][..|before|] == added;
        assert Interrupted(tw.entries[start..], Selected(files, q), q, |before|);
        return;
      }
      assert tw.entries[start..] == added + [Image(files[i], q)];
    }
    assert files[..|files|] == files;
    ghost var chosen := ImagesArchive(files, q);
  }

  /** The selection of a prefix that ends just before a selected file, within the whole selection. */
  lemma SelectedPrefix(files: seq<ZipFile>, i: nat, q: Options)
    requires i < |files| && Selects(q, files[i])
    ensures var before, all := Selected(files[..i], q), Selected(files, q);
            |before| < |all| && all[..|before|] == before && all[|before|] == files[i] && files[i] in all
  {
    var n := |files| - 1;
    if i < n {
      SelectedPrefix(files[..n], i, q);
      assert files[..n][..i] == files[..i];
    }
  }
}
