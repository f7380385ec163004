// Directory listings, the glob patterns the programs use, and the choice
// Python's `max(files, key=...)` makes among them.

module Files {

  import opened Strings
  import opened Options

  /** One directory entry with the two timestamps the programs read
    * (`os.path.getmtime` and `os.path.getctime`). */
  datatype FileEntry = FileEntry(name: string, mtime: int, ctime: int)

  datatype Stamp = ModifiedTime | ChangedTime

  function TimeOf(f: FileEntry, k: Stamp): int {
    match k
    case ModifiedTime => f.mtime
    case ChangedTime => f.ctime
  }

  /**
   * A glob pattern `prefix*suffix` (when `infix` is empty) or
   * `prefix*infix*suffix`, applied to the names of one directory. As in
   * Python's glob module, a name beginning with `.` matches only a pattern
   * that begins with `.` too.
   */
  datatype Pattern = Pattern(prefix: string, infix: string, suffix: string)

  predicate Matches(p: Pattern, name: string) {
    && |p.prefix| + |p.suffix| <= |name|
    && StartsWith(name, p.prefix)
    && EndsWith(name, p.suffix)
    && Contains(name[|p.prefix|..|name| - |p.suffix|], p.infix)
    && (|name| > 0 && name[0] == '.' ==> StartsWith(p.prefix, "."))
  }

  /** `glob.glob(os.path.join(dir, pattern))`, keeping the listing's order. */
  function Glob(listing: seq<FileEntry>, p: Pattern): (r: seq<FileEntry>)
    ensures forall f :: f in r <==> f in listing && Matches(p, f.name)
    ensures |r| <= |listing|
  {
    if |listing| == 0 then []
    else if Matches(p, listing[0].name) then [listing[0]] + Glob(listing[1..], p)
    else Glob(listing[1..], p)
  }

  /** Listing one more entry adds it to the end of the matches if it
    * matches, and changes nothing else. */
  lemma {:induction false} GlobAppend(listing: seq<FileEntry>, f: FileEntry, p: Pattern)
    ensures Glob(listing + [f], p) == Glob(listing, p) + (if Matches(p, f.name) then [f] else [])
    decreases |listing|
  {
    if |listing| == 0 {
      assert listing + [f] == [f];
    } else {
      assert (listing + [f])[1..] == listing[1..] + [f];
      GlobAppend(listing[1..], f, p);
    }
  }

  /**
   * The index `max(s, key=...)` picks: a maximal element, and the first
   * one if several tie, because `max` replaces its candidate only on a
   * strictly greater key.
   */
  function NewestIndex(s: seq<FileEntry>, k: Stamp): (i: nat)
    requires |s| > 0
    ensures i < |s|
    ensures forall j :: 0 <= j < |s| ==> TimeOf(s[j], k) <= TimeOf(s[i], k)
    ensures forall j :: 0 <= j < i ==> TimeOf(s[j], k) < TimeOf(s[i], k)
  {
    if |s| == 1 then 0
    else
      var i := NewestIndex(s[1..], k) + 1;
      assert forall j :: 1 <= j < |s| ==> s[j] == s[1..][j - 1];
      if TimeOf(s[i], k) <= TimeOf(s[0], k) then 0 else i
  }

  /** The index `NewestIndex` returns is the only one with its two
    * properties. */
  lemma NewestIndexUnique(s: seq<FileEntry>, k: Stamp, i: nat)
    requires i < |s|
    requires forall j :: 0 <= j < |s| ==> TimeOf(s[j], k) <= TimeOf(s[i], k)
    requires forall j :: 0 <= j < i ==> TimeOf(s[j], k) < TimeOf(s[i], k)
    ensures i == NewestIndex(s, k)
  {
    var n := NewestIndex(s, k);
    assert !(n < i) && !(i < n);
  }

  /** `max(files, key=...) if files else None` */
  function Newest(s: seq<FileEntry>, k: Stamp): (r: Option<FileEntry>)
    ensures r.None? <==> |s| == 0
    ensures r.Some? ==> r.value in s && forall f :: f in s ==> TimeOf(f, k) <= TimeOf(r.value, k)
  {
    if |s| == 0 then None else Some(s[NewestIndex(s, k)])
  }

  /** A file newer than every other one is the one `max` picks. */
  lemma NewestOfAppend(s: seq<FileEntry>, f: FileEntry, k: Stamp)
    requires forall g :: g in s ==> TimeOf(g, k) < TimeOf(f, k)
    ensures Newest(s + [f], k) == Some(f)
  {
    var t := s + [f];
    if |s| > 0 {
      assert t[..|t| - 1] == s;
      assert s[NewestIndex(s, k)] in s;
    }
  }
}
