/**
  Deterministic hashing of a directory tree (telemetry/tree_hashing.py).

  The digest function is a parameter: nothing is assumed of it but that its
  text holds no NUL. Faithfulness is stated as "equal, or here are two of the
  texts hashed for these trees that collide".
  A directory's entries are listed in byte order of their names.
*/
module TreeHashing {
  import opened Sequences

  type Bytes = seq<nat>

  const NUL: nat := 0
  const SLASH: nat := 47
  const MAX_HASH_ERRORS: nat := 20
  const MAX_REPORTED_SUBDIRECTORIES: nat := 1024

  function Ascii(s: string): Bytes {
    seq(|s|, i requires 0 <= i < |s| => s[i] as nat)
  }

  datatype Mode = ContentMode | PathSizeMode

  function TreePrefix(mode: Mode): Bytes {
    match mode
    case ContentMode => Ascii("smartmatch-content-tree-v1\0")
    case PathSizeMode => Ascii("smartmatch-path-size-tree-v1\0")
  }

  const PATH_SIZE_FILE_PREFIX: Bytes := Ascii("smartmatch-path-size-file-v1\0")
  const UNREADABLE: Bytes := Ascii("unreadable-directory\0")

  // ----------------------------------------------------------------------- Trees

  /**
    `Unreadable` is a directory whose listing failed after the entries `visited`;
    `Broken` is an entry that raised the named error.
  */
  datatype Node =
    | Dir(listing: Listing)
    | Unreadable(visited: Listing, error: Bytes)
    | File(size: nat, content: Bytes)
    | Link(target: Bytes)
    | Other
    | Broken(error: Bytes)

  datatype Listing = End | Entry(name: Bytes, node: Node, rest: Listing)

  predicate Directory(n: Node) {
    n.Dir? || n.Unreadable?
  }

  /** The entries visited of a directory. */
  function ListingOf(n: Node): Listing
    requires Directory(n)
  {
    if n.Dir? then n.listing else n.visited
  }

  /** What a mode looks at: path/size mode never reads contents, no mode hashes what a failed listing gave or why it failed. */
  function Seen(mode: Mode, n: Node): Node
    decreases n
  {
    match n
    case Dir(listing) => Dir(SeenListing(mode, listing))
    case Unreadable(_, _) => Unreadable(End, [])
    case File(size, content) => File(size, if mode.ContentMode? then content else [])
    case _ => n
  }

  function SeenListing(mode: Mode, l: Listing): Listing
    decreases l
  {
    match l
    case End => End
    case Entry(name, node, rest) => Entry(name, Seen(mode, node), SeenListing(mode, rest))
  }

  function FileCount(n: Node): nat
    decreases n
  {
    match n
    case Dir(listing) => FilesIn(listing)
    case File(_, _) => 1
    case _ => 0
  }

  function FilesIn(l: Listing): nat
    decreases l
  {
    if l.End? then 0 else FileCount(l.node) + FilesIn(l.rest)
  }

  function TotalBytes(n: Node): nat
    decreases n
  {
    match n
    case Dir(listing) => BytesIn(listing)
    case File(size, _) => size
    case _ => 0
  }

  function BytesIn(l: Listing): nat
    decreases l
  {
    if l.End? then 0 else TotalBytes(l.node) + BytesIn(l.rest)
  }

  /** The sizes of the regular files below a node, one for each, in the order of the walk. */
  function FileSizes(n: Node): seq<nat>
    decreases n
  {
    match n
    case Dir(listing) => SizesIn(listing)
    case File(size, _) => [size]
    case _ => []
  }

  function SizesIn(l: Listing): seq<nat>
    decreases l
  {
    if l.End? then [] else FileSizes(l.node) + SizesIn(l.rest)
  }

  function Sum(sizes: seq<nat>): nat {
    if sizes == [] then 0 else sizes[0] + Sum(sizes[1..])
  }

  lemma {:induction false} SumAppend(a: seq<nat>, b: seq<nat>)
    ensures Sum(a + b) == Sum(a) + Sum(b)
  {
    if a == [] {
      assert a + b == b;
    } else {
      assert (a + b)[1..] == a[1..] + b;
      SumAppend(a[1..], b);
    }
  }

  /** The counts are the number of regular files and the sum of their sizes; links and failures add nothing. */
  lemma {:induction false} CountsAreOfFiles(n: Node)
    ensures FileCount(n) == |FileSizes(n)| && TotalBytes(n) == Sum(FileSizes(n))
    decreases n
  {
    match n
    case Dir(listing) => CountsInAreOfFiles(listing);
    case File(size, _) => assert [size][1..] == [];
    case _ =>
  }

  lemma {:induction false} CountsInAreOfFiles(l: Listing)
    ensures FilesIn(l) == |SizesIn(l)| && BytesIn(l) == Sum(SizesIn(l))
    decreases l
  {
    if l.Entry? {
      CountsAreOfFiles(l.node);
      CountsInAreOfFiles(l.rest);
      SumAppend(FileSizes(l.node), SizesIn(l.rest));
    }
  }

  // -------------------------------------------------------------------- Encoding

  function Decimal(n: nat): (r: Bytes)
    ensures r != [] && forall b :: b in r ==> 48 <= b <= 57
  {
    if n < 10 then [48 + n] else Decimal(n / 10) + [48 + n % 10]
  }

  function NumberOf(digits: Bytes): int {
    if digits == [] then 0 else NumberOf(digits[..|digits| - 1]) * 10 + digits[|digits| - 1] - 48
  }

  lemma {:induction false} DecimalRoundTrip(n: nat)
    ensures NumberOf(Decimal(n)) == n
  {
    if n < 10 {
      assert Decimal(n)[..0] == [];
    } else {
      DecimalRoundTrip(n / 10);
      assert Decimal(n)[..|Decimal(n)| - 1] == Decimal(n / 10);
    }
  }

  /** One NUL-terminated field, then whatever follows. */
  function Field(f: Bytes, rest: Bytes): Bytes {
    f + [NUL] + rest
  }

  predicate NulFree(f: Bytes) {
    NUL !in f
  }

  lemma FieldLetters(f: Bytes, rest: Bytes)
    ensures |Field(f, rest)| > |f| && Field(f, rest)[|f|] == NUL
    ensures forall i :: 0 <= i < |f| ==> Field(f, rest)[i] == f[i]
  {
  }

  lemma FieldIsDecodable(f: Bytes, r: Bytes, g: Bytes, s: Bytes)
    requires NulFree(f) && NulFree(g) && Field(f, r) == Field(g, s)
    ensures f == g && r == s
  {
    FieldLetters(f, r);
    FieldLetters(g, s);
    assert |f| == |g|;
    SizedFieldIsDecodable(f, r, g, s);
  }

  /** A field announced by its length may hold anything. */
  lemma SizedFieldIsDecodable(f: Bytes, r: Bytes, g: Bytes, s: Bytes)
    requires |f| == |g| && Field(f, r) == Field(g, s)
    ensures f == g && r == s
  {
    assert f == Field(f, r)[..|f|] && g == Field(g, s)[..|g|];
    assert r == Field(f, r)[|f| + 1..] && s == Field(g, s)[|g| + 1..];
  }

  /** `_tree_record`, followed by the records after it. */
  function Record(kind: nat, name: Bytes, size: nat, digest: Bytes, after: Bytes): Bytes {
    Field([kind], Field(Decimal(|name|), Field(name, Field(Decimal(size), Field(digest, after)))))
  }

  /** Records are self-delimiting: a stream determines its first record and the rest. */
  lemma RecordIsDecodable(
    k1: nat, n1: Bytes, s1: nat, d1: Bytes, r1: Bytes, k2: nat, n2: Bytes, s2: nat, d2: Bytes, r2: Bytes)
    requires k1 != NUL && k2 != NUL && NulFree(d1) && NulFree(d2)
    requires Record(k1, n1, s1, d1, r1) == Record(k2, n2, s2, d2, r2)
    ensures k1 == k2 && n1 == n2 && s1 == s2 && d1 == d2 && r1 == r2
  {
    hide Field, Decimal;
    var t1, t2 := Field(Decimal(s1), Field(d1, r1)), Field(Decimal(s2), Field(d2, r2));
    FieldIsDecodable([k1], Field(Decimal(|n1|), Field(n1, t1)), [k2], Field(Decimal(|n2|), Field(n2, t2)));
    FieldIsDecodable(Decimal(|n1|), Field(n1, t1), Decimal(|n2|), Field(n2, t2));
    DecimalRoundTrip(|n1|);
    DecimalRoundTrip(|n2|);
    SizedFieldIsDecodable(n1, t1, n2, t2);
    FieldIsDecodable(Decimal(s1), Field(d1, r1), Decimal(s2), Field(d2, r2));
    DecimalRoundTrip(s1);
    DecimalRoundTrip(s2);
    FieldIsDecodable(d1, r1, d2, r2);
    assert [k1][0] == [k2][0];
  }

  // --------------------------------------------------------------------- Hashing

  /** The hexadecimal text of a digest holds no NUL. */
  ghost predicate DigestText(h: Bytes -> Bytes) {
    forall x :: NulFree(h(x))
  }

  /** Two texts with one digest, the first from `s`, the second from `t`. */
  predicate Collide(h: Bytes -> Bytes, s: set<Bytes>, x: Bytes, t: set<Bytes>, y: Bytes) {
    x in s && y in t && x != y && h(x) == h(y)
  }

  function Join(directory: Bytes, name: Bytes): Bytes {
    if directory == [] then name else directory + [SLASH] + name
  }

  /** What is hashed of a file: its content, or its path and size. */
  function FileText(mode: Mode, path: Bytes, size: nat, content: Bytes): Bytes {
    match mode
    case ContentMode => content
    case PathSizeMode => PATH_SIZE_FILE_PREFIX + Decimal(|path|) + [NUL] + path + [NUL] + Decimal(size)
  }

  function KindByte(n: Node): (k: nat)
    ensures k != NUL && k != UNREADABLE[0]
  {
    match n
    case Link(_) => 'L' as nat
    case Dir(_) => 'D' as nat
    case Unreadable(_, _) => 'D' as nat
    case File(_, _) => 'F' as nat
    case Other => 'O' as nat
    case Broken(_) => 'E' as nat
  }

  /** What is hashed of a directory. */
  function DirectoryText(h: Bytes -> Bytes, mode: Mode, path: Bytes, n: Node): Bytes
    requires Directory(n)
    decreases n, 0
  {
    TreePrefix(mode) + if n.Dir? then Stream(h, mode, path, n.listing) else UNREADABLE
  }

  /** The digest an entry's record carries. */
  function EntryDigest(h: Bytes -> Bytes, mode: Mode, path: Bytes, n: Node): Bytes
    decreases n, 1
  {
    match n
    case Link(target) => h(target)
    case Dir(_) => h(DirectoryText(h, mode, path, n))
    case Unreadable(_, _) => h(DirectoryText(h, mode, path, n))
    case File(size, content) => h(FileText(mode, path, size, content))
    case Other => []
    case Broken(error) => h(error)
  }

  function Stream(h: Bytes -> Bytes, mode: Mode, path: Bytes, l: Listing): Bytes
    decreases l
  {
    match l
    case End => []
    case Entry(name, node, rest) =>
      Record(KindByte(node), name, TotalBytes(node), EntryDigest(h, mode, Join(path, name), node),
             Stream(h, mode, path, rest))
  }

  /** The texts whose digests make up a node's digest. */
  function Texts(h: Bytes -> Bytes, mode: Mode, path: Bytes, n: Node): set<Bytes>
    decreases n
  {
    match n
    case Link(target) => {target}
    case Dir(listing) => {DirectoryText(h, mode, path, n)} + TextsOf(h, mode, path, listing)
    case Unreadable(_, _) => {DirectoryText(h, mode, path, n)}
    case File(size, content) => {FileText(mode, path, size, content)}
    case Other => {}
    case Broken(error) => {error}
  }

  function TextsOf(h: Bytes -> Bytes, mode: Mode, path: Bytes, l: Listing): set<Bytes>
    decreases l
  {
    if l.End? then {} else Texts(h, mode, Join(path, l.name), l.node) + TextsOf(h, mode, path, l.rest)
  }

  // ---------------------------------------------------------------- Faithfulness

  lemma DigestsAreNulFree(h: Bytes -> Bytes, mode: Mode, path: Bytes, n: Node)
    requires DigestText(h)
    ensures NulFree(EntryDigest(h, mode, path, n))
  {
  }

  lemma SamePrefix(p: Bytes, x: Bytes, y: Bytes)
    requires p + x == p + y
    ensures x == y
  {
    assert (p + x)[|p|..] == x && (p + y)[|p|..] == y;
  }

  lemma UnreadableIsNoStream(h: Bytes -> Bytes, mode: Mode, path: Bytes, l: Listing)
    ensures Stream(h, mode, path, l) != UNREADABLE
  {
  }

  /** Entries with equal kinds, sizes and digests look the same, or two of their texts collide. */
  lemma {:induction false} SameRecordSameNode(h: Bytes -> Bytes, mode: Mode, path: Bytes, a: Node, b: Node)
    returns (x: Bytes, y: Bytes)
    requires DigestText(h)
    requires KindByte(a) == KindByte(b) && TotalBytes(a) == TotalBytes(b)
    requires EntryDigest(h, mode, path, a) == EntryDigest(h, mode, path, b)
    ensures Seen(mode, a) == Seen(mode, b) || Collide(h, Texts(h, mode, path, a), x, Texts(h, mode, path, b), y)
    decreases a, 1
  {
    hide Stream, DirectoryText, TreePrefix, FileText;
    match a
    case Link(target) => x, y := target, b.target;
    case File(size, content) =>
      x, y := FileText(mode, path, size, content), FileText(mode, path, b.size, b.content);
      FileTextOfContent(path, size, content);
      FileTextOfContent(path, b.size, b.content);
    case Other => x, y := [], [];
    case Broken(error) => x, y := error, b.error;
    case Unreadable(_, _) => x, y := SameDirectory(h, mode, path, a, b);
    case Dir(_) => x, y := SameDirectory(h, mode, path, a, b);
  }

  lemma FileTextOfContent(path: Bytes, size: nat, content: Bytes)
    ensures FileText(ContentMode, path, size, content) == content
  {
  }

  lemma {:induction false} SameDirectory(h: Bytes -> Bytes, mode: Mode, path: Bytes, a: Node, b: Node)
    returns (x: Bytes, y: Bytes)
    requires DigestText(h) && Directory(a) && Directory(b)
    requires EntryDigest(h, mode, path, a) == EntryDigest(h, mode, path, b)
    ensures Seen(mode, a) == Seen(mode, b) || Collide(h, Texts(h, mode, path, a), x, Texts(h, mode, path, b), y)
    decreases a, 0
  {
    hide TreePrefix, Stream;
    x, y := DirectoryText(h, mode, path, a), DirectoryText(h, mode, path, b);
    if x == y {
      SamePrefix(
        TreePrefix(mode), if a.Dir? then Stream(h, mode, path, a.listing) else UNREADABLE,
        if b.Dir? then Stream(h, mode, path, b.listing) else UNREADABLE);
      if a.Dir? {
        UnreadableIsNoStream(h, mode, path, a.listing);
      }
      if b.Dir? {
        UnreadableIsNoStream(h, mode, path, b.listing);
      }
      if a.Dir? && b.Dir? {
        x, y := SameStream(h, mode, path, a.listing, b.listing);
      }
    }
  }

  lemma {:induction false} SameStream(h: Bytes -> Bytes, mode: Mode, path: Bytes, a: Listing, b: Listing)
    returns (x: Bytes, y: Bytes)
    requires DigestText(h)
    requires Stream(h, mode, path, a) == Stream(h, mode, path, b)
    ensures SeenListing(mode, a) == SeenListing(mode, b)
            || Collide(h, TextsOf(h, mode, path, a), x, TextsOf(h, mode, path, b), y)
    decreases a
  {
    x, y := [], [];
    if a.Entry? && b.Entry? {
      var d, e := EntryDigest(h, mode, Join(path, a.name), a.node), EntryDigest(h, mode, Join(path, b.name), b.node);
      DigestsAreNulFree(h, mode, Join(path, a.name), a.node);
      DigestsAreNulFree(h, mode, Join(path, b.name), b.node);
      RecordIsDecodable(
        KindByte(a.node), a.name, TotalBytes(a.node), d, Stream(h, mode, path, a.rest),
        KindByte(b.node), b.name, TotalBytes(b.node), e, Stream(h, mode, path, b.rest));
      hide Record, EntryDigest, Texts;
      x, y := SameRecordSameNode(h, mode, Join(path, a.name), a.node, b.node);
      if Seen(mode, a.node) == Seen(mode, b.node) {
        x, y := SameStream(h, mode, path, a.rest, b.rest);
      }
    }
  }

  /** The counts reported for a directory depend only on what was seen of it. */
  lemma {:induction false} SeenKeepsCounts(mode: Mode, n: Node)
    ensures FileCount(Seen(mode, n)) == FileCount(n) && TotalBytes(Seen(mode, n)) == TotalBytes(n)
    decreases n
  {
    if n.Dir? {
      SeenListingKeepsCounts(mode, n.listing);
    }
  }

  lemma {:induction false} SeenListingKeepsCounts(mode: Mode, l: Listing)
    ensures FilesIn(SeenListing(mode, l)) == FilesIn(l) && BytesIn(SeenListing(mode, l)) == BytesIn(l)
    decreases l
  {
    if l.Entry? {
      SeenKeepsCounts(mode, l.node);
      SeenListingKeepsCounts(mode, l.rest);
    }
  }

  /** Nothing unseen reaches the hash; path/size mode never depends on contents. */
  lemma {:induction false} HashOfSeen(h: Bytes -> Bytes, mode: Mode, path: Bytes, n: Node)
    ensures EntryDigest(h, mode, path, Seen(mode, n)) == EntryDigest(h, mode, path, n)
    decreases n
  {
    if n.Dir? {
      StreamOfSeen(h, mode, path, n.listing);
    }
  }

  lemma {:induction false} StreamOfSeen(h: Bytes -> Bytes, mode: Mode, path: Bytes, l: Listing)
    ensures Stream(h, mode, path, SeenListing(mode, l)) == Stream(h, mode, path, l)
    decreases l
  {
    if l.Entry? {
      SeenKeepsCounts(mode, l.node);
      HashOfSeen(h, mode, Join(path, l.name), l.node);
      StreamOfSeen(h, mode, path, l.rest);
    }
  }

  /**
    The tree hash is faithful. Two directories that look the same to the mode have
    the same hash; two with the same hash look the same and have the same counts,
    or two of the texts hashed for them, one for each, collide.
  */
  lemma TreeHashIsFaithful(h: Bytes -> Bytes, mode: Mode, path: Bytes, a: Node, b: Node) returns (x: Bytes, y: Bytes)
    requires DigestText(h) && Directory(a) && Directory(b)
    ensures Seen(mode, a) == Seen(mode, b) ==> EntryDigest(h, mode, path, a) == EntryDigest(h, mode, path, b)
    ensures EntryDigest(h, mode, path, a) == EntryDigest(h, mode, path, b) ==>
              || Collide(h, Texts(h, mode, path, a), x, Texts(h, mode, path, b), y)
              || (Seen(mode, a) == Seen(mode, b) && FileCount(a) == FileCount(b) && TotalBytes(a) == TotalBytes(b))
  {
    HashOfSeen(h, mode, path, a);
    HashOfSeen(h, mode, path, b);
    SeenKeepsCounts(mode, a);
    SeenKeepsCounts(mode, b);
    hide EntryDigest, Texts, Seen;
    x, y := [], [];
    if EntryDigest(h, mode, path, a) == EntryDigest(h, mode, path, b) {
      x, y := SameDirectory(h, mode, path, a, b);
    }
  }

  /** The two modes give a directory the same hash only if the two texts they hash collide. */
  lemma ModesNeverAgree(h: Bytes -> Bytes, path: Bytes, a: Node, b: Node)
    requires Directory(a) && Directory(b)
    requires EntryDigest(h, ContentMode, path, a) == EntryDigest(h, PathSizeMode, path, b)
    ensures Collide(h, Texts(h, ContentMode, path, a), DirectoryText(h, ContentMode, path, a),
                    Texts(h, PathSizeMode, path, b), DirectoryText(h, PathSizeMode, path, b))
  {
    hide Stream, TextsOf;
    assert DirectoryText(h, ContentMode, path, a)[11] == 'c' as nat;
    assert DirectoryText(h, PathSizeMode, path, b)[11] == 'p' as nat;
  }

  /** In path/size mode the text hashed for a file, and so its digest unless these texts collide, pins path and size. */
  lemma PathSizeFileHashIsFaithful(p: Bytes, m: nat, q: Bytes, n: nat, c: Bytes, d: Bytes)
    ensures FileText(PathSizeMode, p, m, c) == FileText(PathSizeMode, q, n, d) <==> p == q && m == n
  {
    hide FileText, Field, Decimal;
    if FileText(PathSizeMode, p, m, c) == FileText(PathSizeMode, q, n, d) {
      PathSizeText(p, m, c);
      PathSizeText(q, n, d);
      SamePrefix(
        PATH_SIZE_FILE_PREFIX, Field(Decimal(|p|), Field(p, Decimal(m))), Field(Decimal(|q|), Field(q, Decimal(n))));
      FieldIsDecodable(Decimal(|p|), Field(p, Decimal(m)), Decimal(|q|), Field(q, Decimal(n)));
      DecimalRoundTrip(|p|);
      DecimalRoundTrip(|q|);
      SizedFieldIsDecodable(p, Decimal(m), q, Decimal(n));
      DecimalRoundTrip(m);
      DecimalRoundTrip(n);
    } else if p == q && m == n {
      PathSizeText(p, m, c);
      PathSizeText(q, n, d);
    }
  }

  lemma PathSizeText(path: Bytes, size: nat, content: Bytes)
    ensures FileText(PathSizeMode, path, size, content)
         == PATH_SIZE_FILE_PREFIX + Field(Decimal(|path|), Field(path, Decimal(size)))
  {
    hide Decimal;
  }

  // ------------------------------------------------------------------- The walk

  datatype DirectoryHash = DirectoryHash(sha256: Bytes, fileCount: nat, totalBytes: nat)

  function HashOf(h: Bytes -> Bytes, mode: Mode, path: Bytes, n: Node): DirectoryHash {
    DirectoryHash(EntryDigest(h, mode, path, n), FileCount(n), TotalBytes(n))
  }

  /** The errors met on the way, in order: the path and what was raised there. */
  function ErrorsIn(path: Bytes, n: Node): seq<(Bytes, Bytes)>
    decreases n
  {
    match n
    case Dir(listing) => ErrorsOf(path, listing)
    case Unreadable(visited, error) => ErrorsOf(path, visited) + [(path, error)]
    case Broken(error) => [(path, error)]
    case _ => []
  }

  function ErrorsOf(path: Bytes, l: Listing): seq<(Bytes, Bytes)>
    decreases l
  {
    if l.End? then [] else ErrorsIn(Join(path, l.name), l.node) + ErrorsOf(path, l.rest)
  }

  /** The first of them, as many as are reported. */
  function Reported<T>(all: seq<T>, limit: nat): seq<T> {
    if |all| <= limit then all else all[..limit]
  }

  /** The immediate subdirectories, in order. */
  function Subdirectories(h: Bytes -> Bytes, mode: Mode, path: Bytes, l: Listing): seq<(Bytes, DirectoryHash)>
    decreases l
  {
    if l.End? then []
    else if Directory(l.node) then
      [(l.name, HashOf(h, mode, Join(path, l.name), l.node))] + Subdirectories(h, mode, path, l.rest)
    else Subdirectories(h, mode, path, l.rest)
  }

  function OwnSubdirectory(h: Bytes -> Bytes, mode: Mode, path: Bytes, name: Bytes, n: Node): seq<(Bytes, DirectoryHash)> {
    if path == [] && Directory(n) then [(name, HashOf(h, mode, Join(path, name), n))] else []
  }

  /** Only the walk's root reports its subdirectories. */
  function RootSubdirectories(h: Bytes -> Bytes, mode: Mode, path: Bytes, l: Listing): seq<(Bytes, DirectoryHash)> {
    if path == [] then Subdirectories(h, mode, path, l) else []
  }

  /** The listing has this entry. */
  ghost predicate Lists(l: Listing, name: Bytes, n: Node)
    decreases l
  {
    l.Entry? && ((l.name == name && l.node == n) || Lists(l.rest, name, n))
  }

  /** The node is at path `p`, somewhere below a directory at `path` with this listing. */
  ghost predicate Below(l: Listing, path: Bytes, p: Bytes, n: Node)
    decreases l
  {
    && l.Entry?
    && (|| (p == Join(path, l.name) && n == l.node)
        || (Directory(l.node) && Below(ListingOf(l.node), Join(path, l.name), p, n))
        || Below(l.rest, path, p, n))
  }

  /** Errors are reported for exactly the entries and directories below that failed, each with its path and cause. */
  lemma {:induction false} ErrorsExactly(path: Bytes, l: Listing, p: Bytes, error: Bytes)
    ensures (p, error) in ErrorsOf(path, l) <==>
              exists n :: Below(l, path, p, n) && (n.Broken? || n.Unreadable?) && n.error == error
    decreases l
  {
    if l.Entry? {
      var here, at := l.node, Join(path, l.name);
      ErrorsExactly(path, l.rest, p, error);
      if Directory(here) {
        ErrorsExactly(at, ListingOf(here), p, error);
      }
      if (here.Broken? || here.Unreadable?) && (p, error) == (at, here.error) {
        assert Below(l, path, p, here);
      }
      if n :| Below(l, path, p, n) && (n.Broken? || n.Unreadable?) && n.error == error {
        assert (p == at && n == here) || (Directory(here) && Below(ListingOf(here), at, p, n)) || Below(l.rest, path, p, n);
      }
      if (p, error) in ErrorsIn(at, here) && (p, error) != (at, if here.Broken? || here.Unreadable? then here.error else []) {
        var n :| Below(ListingOf(here), at, p, n) && (n.Broken? || n.Unreadable?) && n.error == error;
        assert Below(l, path, p, n);
      }
      if (p, error) in ErrorsOf(path, l.rest) {
        var n :| Below(l.rest, path, p, n) && (n.Broken? || n.Unreadable?) && n.error == error;
        assert Below(l, path, p, n);
      }
    }
  }

  /** The subdirectories reported are the directories listed, each with its own hash and counts. */
  lemma {:induction false} SubdirectoriesExactly(
    h: Bytes -> Bytes, mode: Mode, path: Bytes, l: Listing, name: Bytes, d: DirectoryHash)
    ensures (name, d) in Subdirectories(h, mode, path, l) <==>
              exists n :: Lists(l, name, n) && Directory(n)
                && d.sha256 == EntryDigest(h, mode, Join(path, name), n)
                && d.fileCount == |FileSizes(n)| && d.totalBytes == Sum(FileSizes(n))
    decreases l
  {
    if l.Entry? {
      hide EntryDigest, FileSizes, Sum, Join, FileCount, TotalBytes;
      CountsAreOfFiles(l.node);
      SubdirectoriesExactly(h, mode, path, l.rest, name, d);
      if Directory(l.node) && (name, d) == (l.name, HashOf(h, mode, Join(path, l.name), l.node)) {
        assert Lists(l, name, l.node);
      }
      if (name, d) in Subdirectories(h, mode, path, l.rest) {
        var n :| Lists(l.rest, name, n) && Directory(n)
          && d.sha256 == EntryDigest(h, mode, Join(path, name), n)
          && d.fileCount == |FileSizes(n)| && d.totalBytes == Sum(FileSizes(n));
        assert Lists(l, name, n);
      }
    }
  }

  /** No file system gives an entry an empty name. */
  predicate Named(n: Node)
    decreases n
  {
    Directory(n) ==> ListingNamed(ListingOf(n))
  }

  predicate ListingNamed(l: Listing)
    decreases l
  {
    l.Entry? ==> l.name != [] && Named(l.node) && ListingNamed(l.rest)
  }

  lemma StreamStep(h: Bytes -> Bytes, mode: Mode, path: Bytes, l: Listing, fed: Bytes, record: Bytes)
    requires l.Entry?
    requires record == Record(KindByte(l.node), l.name, TotalBytes(l.node), EntryDigest(h, mode, Join(path, l.name), l.node), [])
    ensures fed + record + Stream(h, mode, path, l.rest) == fed + Stream(h, mode, path, l)
  {
  }

  lemma ErrorStep(path: Bytes, l: Listing, had: seq<(Bytes, Bytes)>)
    requires l.Entry?
    ensures had + ErrorsIn(Join(path, l.name), l.node) + ErrorsOf(path, l.rest) == had + ErrorsOf(path, l)
  {
  }

  lemma SubdirectoryStep(h: Bytes -> Bytes, mode: Mode, path: Bytes, l: Listing, had: seq<(Bytes, DirectoryHash)>)
    requires l.Entry?
    ensures had + OwnSubdirectory(h, mode, path, l.name, l.node) + RootSubdirectories(h, mode, path, l.rest)
         == had + RootSubdirectories(h, mode, path, l)
  {
    hide Join, HashOf;
    AppendAssociative(
      had, OwnSubdirectory(h, mode, path, l.name, l.node), RootSubdirectories(h, mode, path, l.rest));
    AppendEmpty(had);
  }

  /** An incremental digest object. */
  class Hasher {
    const h: Bytes -> Bytes
    var fed: Bytes

    constructor (h: Bytes -> Bytes, start: Bytes)
      ensures this.h == h && fed == start
    {
      this.h, fed := h, start;
    }

    method Update(more: Bytes)
      modifies this
      ensures fed == old(fed) + more
    {
      fed := fed + more;
    }

    method HexDigest() returns (text: Bytes)
      ensures text == h(fed)
    {
      text := h(fed);
    }
  }

  class TreeHasher {
    const h: Bytes -> Bytes
    const mode: Mode
    var errors: seq<(Bytes, Bytes)>
    var errorCount: nat
    var subdirectories: seq<(Bytes, DirectoryHash)>
    var subdirectoryCount: nat
    ghost var allErrors: seq<(Bytes, Bytes)>
    ghost var allSubdirectories: seq<(Bytes, DirectoryHash)>

    constructor (h: Bytes -> Bytes, mode: Mode)
      ensures this.h == h && this.mode == mode && Valid() && allErrors == [] && allSubdirectories == []
    {
      this.h, this.mode := h, mode;
      errors, errorCount, allErrors := [], 0, [];
      subdirectories, subdirectoryCount, allSubdirectories := [], 0, [];
    }

    /** Lists are bounded; counts are not. */
    ghost predicate Valid()
      reads this
    {
      && errors == Reported(allErrors, MAX_HASH_ERRORS) && errorCount == |allErrors|
      && subdirectories == Reported(allSubdirectories, MAX_REPORTED_SUBDIRECTORIES)
      && subdirectoryCount == |allSubdirectories|
    }

    method RecordError(path: Bytes, error: Bytes)
      requires Valid()
      modifies this`errors, this`errorCount, this`allErrors
      ensures Valid() && allErrors == old(allErrors) + [(path, error)]
    {
      errorCount := errorCount + 1;
      if |errors| < MAX_HASH_ERRORS {
        errors := errors + [(path, error)];
      }
      allErrors := allErrors + [(path, error)];
    }

    method RecordSubdirectory(name: Bytes, child: DirectoryHash)
      requires Valid()
      modifies this`subdirectories, this`subdirectoryCount, this`allSubdirectories
      ensures Valid() && allSubdirectories == old(allSubdirectories) + [(name, child)]
    {
      subdirectoryCount := subdirectoryCount + 1;
      if |subdirectories| < MAX_REPORTED_SUBDIRECTORIES {
        subdirectories := subdirectories + [(name, child)];
      }
      allSubdirectories := allSubdirectories + [(name, child)];
    }

    /** `visit`: one digest per directory, fed record by record. */
    method Visit(directory: Node, relative: Bytes) returns (r: DirectoryHash)
      requires Valid() && Directory(directory) && Named(directory)
      modifies this
      ensures Valid()
      ensures r == HashOf(h, mode, relative, directory)
      ensures allErrors == old(allErrors) + ErrorsIn(relative, directory)
      ensures allSubdirectories
           == old(allSubdirectories) + RootSubdirectories(h, mode, relative, ListingOf(directory))
      ensures relative == [] ==> allSubdirectories == old(allSubdirectories) + Subdirectories(h, mode, [], ListingOf(directory))
      ensures relative != [] ==> allSubdirectories == old(allSubdirectories)
      ensures |errors| <= 20 && errors <= allErrors && errorCount == |allErrors|
      ensures |subdirectories| <= 1024 && subdirectories <= allSubdirectories && subdirectoryCount == |allSubdirectories|
      decreases directory, 1
    {
      hide Valid, TreePrefix, RootSubdirectories, ErrorsOf;
      match directory {
        case Unreadable(visited, error) =>
          var discarded := VisitListing(visited, relative);
          AppendAssociative(old(allErrors), ErrorsOf(relative, visited), [(relative, error)]);
          RecordError(relative, error);
          var digest := new Hasher(h, TreePrefix(mode));
          digest.Update(UNREADABLE);
          var text := digest.HexDigest();
          assert digest.fed == DirectoryText(h, mode, relative, directory);
          r := DirectoryHash(text, 0, 0);
        case Dir(listing) =>
          r := VisitListing(listing, relative);
      }
      ListsAreBounded();
      RootOnly(h, mode, relative, ListingOf(directory));
      AppendEmpty(old(allSubdirectories));
    }

    lemma ListsAreBounded()
      requires Valid()
      ensures |errors| <= 20 && errors <= allErrors && errorCount == |allErrors|
      ensures |subdirectories| <= 1024 && subdirectories <= allSubdirectories && subdirectoryCount == |allSubdirectories|
    {
    }

    method VisitListing(listing: Listing, relative: Bytes) returns (r: DirectoryHash)
      requires Valid() && ListingNamed(listing)
      modifies this
      ensures Valid()
      ensures r == HashOf(h, mode, relative, Dir(listing))
      ensures allErrors == old(allErrors) + ErrorsOf(relative, listing)
      ensures allSubdirectories == old(allSubdirectories) + RootSubdirectories(h, mode, relative, listing)
      decreases listing, 1
    {
      hide TreePrefix, Valid, RootSubdirectories, ErrorsIn, Record, Join, Named;
      var digest := new Hasher(h, TreePrefix(mode));
      var fileCount, totalBytes := 0, 0;
      var pending := listing;
      while pending.Entry?
        invariant Valid() && (pending == listing || pending < listing) && ListingNamed(pending)
        invariant digest.fed + Stream(h, mode, relative, pending) == TreePrefix(mode) + Stream(h, mode, relative, listing)
        invariant digest.h == h && fresh(digest)
        invariant fileCount + FilesIn(pending) == FilesIn(listing)
        invariant totalBytes + BytesIn(pending) == BytesIn(listing)
        invariant allErrors + ErrorsOf(relative, pending) == old(allErrors) + ErrorsOf(relative, listing)
        invariant allSubdirectories + RootSubdirectories(h, mode, relative, pending)
               == old(allSubdirectories) + RootSubdirectories(h, mode, relative, listing)
        decreases pending
      {
        ghost var fed, hadErrors, hadSubdirectories := digest.fed, allErrors, allSubdirectories;
        var record, files, bytes := VisitEntry(pending.name, pending.node, relative);
        digest.Update(record);
        StreamStep(h, mode, relative, pending, fed, record);
        ErrorStep(relative, pending, hadErrors);
        SubdirectoryStep(h, mode, relative, pending, hadSubdirectories);
        fileCount, totalBytes := fileCount + files, totalBytes + bytes;
        pending := pending.rest;
      }
      AppendEmpty(digest.fed);
      AppendEmpty(allErrors);
      NoSubdirectories(h, mode, relative);
      AppendEmpty(allSubdirectories);
      var text := digest.HexDigest();
      assert digest.fed == DirectoryText(h, mode, relative, Dir(listing));
      r := DirectoryHash(text, fileCount, totalBytes);
    }

    /** The record of one entry. Errors are recorded and become part of the hash. */
    method VisitEntry(name: Bytes, node: Node, relative: Bytes) returns (record: Bytes, files: nat, bytes: nat)
      requires Valid() && name != [] && Named(node)
      modifies this
      ensures Valid()
      ensures record == Record(KindByte(node), name, TotalBytes(node), EntryDigest(h, mode, Join(relative, name), node), [])
      ensures files == FileCount(node) && bytes == TotalBytes(node)
      ensures allErrors == old(allErrors) + ErrorsIn(Join(relative, name), node)
      ensures allSubdirectories == old(allSubdirectories) + OwnSubdirectory(h, mode, relative, name, node)
      decreases node, 3
    {
      hide Record, Valid, TreePrefix, FileText, DirectoryText;
      var path := Join(relative, name);
      AppendEmpty(allErrors);
      AppendEmpty(allSubdirectories);
      match node {
        case Link(target) => record, files, bytes := Record('L' as nat, name, 0, h(target), []), 0, 0;
        case Other => record, files, bytes := Record('O' as nat, name, 0, [], []), 0, 0;
        case File(size, content) =>
          record, files, bytes := Record('F' as nat, name, size, h(FileText(mode, path, size, content)), []), 1, size;
        case Broken(error) =>
          RecordError(path, error);
          record, files, bytes := Record('E' as nat, name, 0, h(error), []), 0, 0;
        case Dir(_) => record, files, bytes := VisitChild(name, node, relative);
        case Unreadable(_, _) => record, files, bytes := VisitChild(name, node, relative);
      }
    }

    method VisitChild(name: Bytes, node: Node, relative: Bytes) returns (record: Bytes, files: nat, bytes: nat)
      requires Valid() && name != [] && Named(node) && Directory(node)
      modifies this
      ensures Valid()
      ensures record == Record('D' as nat, name, TotalBytes(node), EntryDigest(h, mode, Join(relative, name), node), [])
      ensures files == FileCount(node) && bytes == TotalBytes(node)
      ensures allErrors == old(allErrors) + ErrorsIn(Join(relative, name), node)
      ensures allSubdirectories == old(allSubdirectories) + OwnSubdirectory(h, mode, relative, name, node)
      decreases node, 2
    {
      hide Record, TreePrefix;
      AppendEmpty(allSubdirectories);
      var child := Visit(node, Join(relative, name));
      assert allSubdirectories == old(allSubdirectories);
      record := Record('D' as nat, name, child.totalBytes, child.sha256, []);
      files, bytes := child.fileCount, child.totalBytes;
      if relative == [] {
        RecordSubdirectory(name, child);
      }
    }
  }

  lemma RootOnly(h: Bytes -> Bytes, mode: Mode, path: Bytes, l: Listing)
    ensures RootSubdirectories(h, mode, path, l) == if path == [] then Subdirectories(h, mode, [], l) else []
  {
  }

  lemma NoSubdirectories(h: Bytes -> Bytes, mode: Mode, path: Bytes)
    ensures RootSubdirectories(h, mode, path, End) == []
  {
  }
}
