/** The strict walk that archives a tree, and where every record of the archive starts. */
module TarWriter {
  import opened Common
  import opened Metadata
  import opened Entries
  import opened Paths

  const BLOCK := 512
  const TRAILER_BYTES := 1024

  // ---------- What is archived ----------

  datatype Kind = Regular | Dir | Symlink | CharDevice | BlockDevice | Fifo | Socket | Unsupported

  /** How listing a directory went. */
  datatype Listing = Listed | Denied | Failed

  /**
   * One object of the file system as the walk finds it. `inode` identifies a file with several names, `content` is what
   * reading it yields when it opens, `target` what a link points to when it can be read.
   */
  datatype Node = Node(
    name: string, kind: Kind, mode: string, inode: Option<int>, size: int, content: Option<Bytes>, target: Option<string>,
    metadataOk: bool, otherDevice: bool, listing: Listing, children: seq<Node>)

  /** One object the walk archives, and under which path. */
  datatype Item = Item(path: string, node: Node)

  datatype TarHeader = TarHeader(name: string, kind: string, mode: string, size: int, linkname: string)

  /** The tar library's header encoding, records included, and the digest of a file's content. */
  datatype Tar = Tar(header: TarHeader -> Bytes, sum: Bytes -> string)

  ghost predicate HeaderAt(tar: Tar, h: TarHeader) { |tar.header(h)| > 0 && |tar.header(h)| % BLOCK == 0 }

  ghost predicate SumAt(tar: Tar, b: Bytes) { ValidHex64(tar.sum(b)) }

  /** Headers fill whole blocks; sums are 64 hex digits. */
  ghost predicate TarLaw(tar: Tar) { (forall h :: HeaderAt(tar, h)) && (forall b :: SumAt(tar, b)) }

  function Padding(n: nat): (p: nat)
    ensures p < BLOCK && (n + p) % BLOCK == 0
  {
    if n % BLOCK == 0 then 0
    else
      assert n + (BLOCK - n % BLOCK) == (n / BLOCK + 1) * BLOCK;
      BLOCK - n % BLOCK
  }

  function RoundUp(n: nat): nat { (n + BLOCK - 1) / BLOCK * BLOCK }

  lemma RoundUpPads(n: nat, pad: nat)
    requires pad < BLOCK && (n + pad) % BLOCK == 0
    ensures RoundUp(n) == n + pad
  {
    var k := (n + pad) / BLOCK;
    assert n + pad == k * BLOCK;
    assert (n + BLOCK - 1) / BLOCK == k;
  }

  function TypeName(kind: Kind): string {
    match kind
    case Regular => TYPE_REGULAR
    case Dir => TYPE_DIR
    case Symlink => TYPE_SYMLINK
    case CharDevice => TYPE_CHAR
    case BlockDevice => TYPE_BLOCK
    case _ => TYPE_FIFO
  }

  function HeaderOf(e: FileEntry): TarHeader {
    TarHeader(if e.kind == TYPE_DIR then TrimSlash(e.path) + "/" else e.path, e.kind, e.mode, e.size, e.linkTarget)
  }

  function TrimSlash(path: string): string {
    if path != "" && path[|path| - 1] == '/' then path[..|path| - 1] else path
  }

  /** No slash at the end, unless the path is the root itself. */
  predicate ArchivePath(path: string) { path != "" && (path[|path| - 1] != '/' || path == "/") }

  /** A header tells everything an entry records but its place and its digest; a slash at the end marks a directory. */
  lemma HeaderTells(a: FileEntry, b: FileEntry)
    requires ArchivePath(a.path) && ArchivePath(b.path)
    ensures HeaderOf(a) == HeaderOf(b) ==> a == b.(tarOffset := a.tarOffset, sha256 := a.sha256)
    ensures a.path != "/" ==> (a.kind == TYPE_DIR <==> HeaderOf(a).name == a.path + "/")
    ensures a.kind != TYPE_DIR ==> HeaderOf(a).name == a.path
  {
    if a.kind == b.kind == TYPE_DIR && HeaderOf(a) == HeaderOf(b) {
      var x, y := TrimSlash(a.path), TrimSlash(b.path);
      assert (x + "/")[..|x|] == x && (y + "/")[..|y|] == y;
    }
  }

  // ---------- The records ----------

  /** Header, content and padding of one entry. */
  function RecordOf(tar: Tar, e: FileEntry, content: Bytes): Bytes {
    tar.header(HeaderOf(e)) + content + Zeros(Padding(|content|))
  }

  /** The first n records, one behind the other. */
  function Joined(tar: Tar, entries: seq<FileEntry>, contents: seq<Bytes>, n: nat): Bytes
    requires n <= |entries| == |contents|
  {
    if n == 0 then [] else Joined(tar, entries, contents, n - 1) + RecordOf(tar, entries[n - 1], contents[n - 1])
  }

  lemma {:induction false} JoinedAgree(tar: Tar, entries: seq<FileEntry>, contents: seq<Bytes>, e: FileEntry, content: Bytes, n: nat)
    requires n <= |entries| == |contents|
    ensures Joined(tar, entries + [e], contents + [content], n) == Joined(tar, entries, contents, n)
  {
    if n > 0 {
      JoinedAgree(tar, entries, contents, e, content, n - 1);
    }
  }

  lemma RecordLength(tar: Tar, e: FileEntry, content: Bytes)
    requires TarLaw(tar)
    ensures |RecordOf(tar, e, content)| > 0 && |RecordOf(tar, e, content)| % BLOCK == 0
  {
    assert HeaderAt(tar, HeaderOf(e));
  }

  lemma WholeBlocks(a: nat, b: nat)
    requires a % BLOCK == 0 && b % BLOCK == 0
    ensures (a + b) % BLOCK == 0
  {
  }

  lemma {:induction false} JoinedBlocks(tar: Tar, entries: seq<FileEntry>, contents: seq<Bytes>, n: nat)
    requires TarLaw(tar) && n <= |entries| == |contents|
    ensures |Joined(tar, entries, contents, n)| % BLOCK == 0
  {
    if n > 0 {
      JoinedBlocks(tar, entries, contents, n - 1);
      RecordLength(tar, entries[n - 1], contents[n - 1]);
      WholeBlocks(|Joined(tar, entries, contents, n - 1)|, |RecordOf(tar, entries[n - 1], contents[n - 1])|);
    }
  }

  lemma {:induction false} JoinedGrows(tar: Tar, entries: seq<FileEntry>, contents: seq<Bytes>, i: nat, n: nat)
    requires TarLaw(tar) && i < n <= |entries| == |contents|
    ensures |Joined(tar, entries, contents, i)| < |Joined(tar, entries, contents, n)|
  {
    RecordLength(tar, entries[n - 1], contents[n - 1]);
    if i < n - 1 {
      JoinedGrows(tar, entries, contents, i, n - 1);
    }
  }

  /** Entry i starts where its record does and says what its content is. */
  ghost predicate EntryAt(tar: Tar, entries: seq<FileEntry>, contents: seq<Bytes>, i: nat)
    requires i < |entries| == |contents|
  {
    && entries[i].tarOffset == |Joined(tar, entries, contents, i)|
    && entries[i].size == |contents[i]| && entries[i].path != "" && KnownType(entries[i].kind)
    && (entries[i].kind == TYPE_REGULAR ==> entries[i].sha256 == tar.sum(contents[i]))
  }

  /** What reached the writer, up to the padding still owed, is the records of the entries. */
  ghost predicate Tiled(tar: Tar, entries: seq<FileEntry>, contents: seq<Bytes>, written: Bytes, pad: nat) {
    && |entries| == |contents| && pad < BLOCK
    && written + Zeros(pad) == Joined(tar, entries, contents, |entries|)
    && forall i :: 0 <= i < |entries| ==> EntryAt(tar, entries, contents, i)
  }

  lemma TiledOffset(tar: Tar, entries: seq<FileEntry>, contents: seq<Bytes>, written: Bytes, pad: nat)
    requires TarLaw(tar) && Tiled(tar, entries, contents, written, pad)
    ensures RoundUp(|written|) == |written| + pad == |Joined(tar, entries, contents, |entries|)|
  {
    JoinedBlocks(tar, entries, contents, |entries|);
    RoundUpPads(|written|, pad);
  }

  lemma TiledOneMore(tar: Tar, entries: seq<FileEntry>, contents: seq<Bytes>, written: Bytes, pad: nat, e: FileEntry, content: Bytes)
    requires Tiled(tar, entries, contents, written, pad) && e.tarOffset == |written| + pad
    requires e.size == |content| && e.path != "" && KnownType(e.kind) && (e.kind == TYPE_REGULAR ==> e.sha256 == tar.sum(content))
    ensures Tiled(tar, entries + [e], contents + [content],
                  written + Zeros(pad) + tar.header(HeaderOf(e)) + content, Padding(|content|))
  {
    var all, bodies := entries + [e], contents + [content];
    JoinedAgree(tar, entries, contents, e, content, |entries|);
    forall i | 0 <= i < |all| ensures EntryAt(tar, all, bodies, i) {
      if i < |entries| {
        assert EntryAt(tar, entries, contents, i);
        JoinedAgree(tar, entries, contents, e, content, i);
      }
    }
    assert written + Zeros(pad) + tar.header(HeaderOf(e)) + content + Zeros(Padding(|content|))
        == (written + Zeros(pad)) + RecordOf(tar, e, content);
  }

  // ---------- Hard links ----------

  /** One of the first n entries is the regular file at that path, and the node behind it has that inode. */
  ghost predicate NamesFile(entries: seq<FileEntry>, items: seq<Item>, n: nat, path: string, key: int)
    requires n <= |entries| == |items|
  {
    exists j :: 0 <= j < n && entries[j].path == path && entries[j].kind == TYPE_REGULAR && items[j].node.inode == Some(key)
  }

  /** Every remembered path is a regular entry with that inode, and every regular entry with an inode is remembered. */
  ghost predicate LinksOk(entries: seq<FileEntry>, items: seq<Item>, links: map<int, string>)
    requires |entries| == |items|
  {
    && (forall key :: key in links ==> NamesFile(entries, items, |entries|, links[key], key))
    && (forall i :: 0 <= i < |entries| ==> RememberedAt(entries, items, links, i))
  }

  predicate RememberedAt(entries: seq<FileEntry>, items: seq<Item>, links: map<int, string>, i: nat)
    requires i < |entries| == |items|
  {
    entries[i].kind == TYPE_REGULAR && items[i].node.inode.Some? ==>
      items[i].node.inode.value in links && links[items[i].node.inode.value] == entries[i].path
  }

  /** Every hard link names an earlier regular entry of the same file. */
  ghost predicate LinksBack(entries: seq<FileEntry>, items: seq<Item>)
    requires |entries| == |items|
  {
    forall i :: 0 <= i < |entries| ==> LinkAt(entries, items, i)
  }

  ghost predicate LinkAt(entries: seq<FileEntry>, items: seq<Item>, i: nat)
    requires i < |entries| == |items|
  {
    entries[i].kind == TYPE_HARDLINK ==>
      items[i].node.inode.Some? && NamesFile(entries, items, i, entries[i].linkTarget, items[i].node.inode.value)
  }

  lemma StillNamesFile(entries: seq<FileEntry>, items: seq<Item>, e: FileEntry, item: Item, n: nat, path: string, key: int)
    requires n <= |entries| == |items| && NamesFile(entries, items, n, path, key)
    ensures NamesFile(entries + [e], items + [item], n, path, key)
    ensures NamesFile(entries + [e], items + [item], |entries| + 1, path, key)
  {
    var j :| 0 <= j < n && entries[j].path == path && entries[j].kind == TYPE_REGULAR && items[j].node.inode == Some(key);
    assert (entries + [e])[j] == entries[j] && (items + [item])[j] == items[j];
  }

  lemma LinksBackOneMore(entries: seq<FileEntry>, items: seq<Item>, e: FileEntry, item: Item)
    requires |entries| == |items| && LinksBack(entries, items)
    requires e.kind == TYPE_HARDLINK ==> item.node.inode.Some? && NamesFile(entries, items, |entries|, e.linkTarget, item.node.inode.value)
    ensures LinksBack(entries + [e], items + [item])
  {
    var all, both := entries + [e], items + [item];
    forall i | 0 <= i < |all| ensures LinkAt(all, both, i) {
      if i < |entries| {
        assert LinkAt(entries, items, i);
      }
      if all[i].kind == TYPE_HARDLINK {
        StillNamesFile(entries, items, e, item, i, all[i].linkTarget, both[i].node.inode.value);
      }
    }
  }

  lemma LinksOkOneMore(entries: seq<FileEntry>, items: seq<Item>, links: map<int, string>, e: FileEntry, item: Item, after: map<int, string>)
    requires |entries| == |items| && LinksOk(entries, items, links)
    requires if e.kind == TYPE_REGULAR && item.node.inode.Some? then item.node.inode.value !in links && after == links[item.node.inode.value := e.path]
             else after == links
    ensures LinksOk(entries + [e], items + [item], after)
  {
    var all, both := entries + [e], items + [item];
    assert all[|entries|] == e && both[|entries|] == item;
    forall key | key in after ensures NamesFile(all, both, |all|, after[key], key) {
      if key in links {
        StillNamesFile(entries, items, e, item, |entries|, links[key], key);
      }
    }
    forall i | 0 <= i < |all| ensures RememberedAt(all, both, after, i) {
      assert i < |entries| ==> RememberedAt(entries, items, links, i);
    }
  }

  // ---------- Paths ----------

  /** The path itself or something below it. */
  predicate Under(path: string, dir: string) { path == dir || dir + "/" <= path }

  predicate PlainName(name: string) { name != "" && '/' !in name }

  /** A root is archived under its base name, which is a plain name or, for the file system root, a slash. */
  predicate RootName(name: string) { name == "/" || PlainName(name) }

  lemma UnderTransitive(path: string, dir: string, name: string)
    requires Under(path, dir + "/" + name)
    ensures Under(path, dir) && path != dir
  {
    assert dir + "/" + name == (dir + "/") + name;
    assert (dir + "/" + name) + "/" == (dir + "/") + (name + "/");
  }

  /** What comes before the first slash. */
  function Head(s: string): string {
    if s == "" || s[0] == '/' then "" else [s[0]] + Head(s[1..])
  }

  lemma {:induction false} HeadOf(name: string, rest: string)
    requires '/' !in name && (rest == "" || rest[0] == '/')
    ensures Head(name + rest) == name
  {
    if name == "" {
      assert name + rest == rest;
    } else {
      assert (name + rest)[1..] == name[1..] + rest && name == [name[0]] + name[1..];
      HeadOf(name[1..], rest);
    }
  }

  lemma UnderHead(path: string, name: string)
    requires PlainName(name) && Under(path, name)
    ensures Head(path) == name
  {
    var rest := path[|name|..];
    assert path == name + rest;
    assert path != name ==> (name + "/")[|name|] == path[|name|];
    HeadOf(name, rest);
  }

  lemma BelowHead(path: string, dir: string, name: string)
    requires PlainName(name) && Under(path, dir + "/" + name)
    ensures |dir| < |path| && Head(path[|dir| + 1..]) == name
  {
    var tail := path[|dir| + 1..];
    assert (dir + "/" + name)[|dir| + 1..] == name && (dir + "/" + name + "/")[|dir| + 1..] == name + "/";
    UnderHead(tail, name);
  }

  /** Siblings with different names have no path in common. */
  lemma SiblingsApart(path: string, dir: string, a: string, b: string)
    requires PlainName(a) && PlainName(b) && Under(path, dir + "/" + a) && Under(path, dir + "/" + b)
    ensures a == b
  {
    BelowHead(path, dir, a);
    BelowHead(path, dir, b);
  }

  /** The root a path belongs to. */
  function RootOf(path: string): string { if path != "" && path[0] == '/' then "/" else Head(path) }

  lemma UnderRoot(path: string, root: string)
    requires RootName(root) && Under(path, root)
    ensures RootOf(path) == root
  {
    assert path[0] == root[0];
    if root != "/" {
      UnderHead(path, root);
    }
  }

  // ---------- One entry ----------

  /** What the walk relies on the file system for: plain, distinct names inside every directory. */
  ghost predicate Proper(node: Node) {
    && (forall i :: 0 <= i < |node.children| ==> NamedAt(node.children, i))
    && (forall i {:trigger Proper(node.children[i])} :: 0 <= i < |node.children| ==> Proper(node.children[i]))
  }

  /** A plain name other than "." and ".." that no earlier sibling has. */
  ghost predicate NamedAt(children: seq<Node>, i: nat)
    requires i < |children|
  {
    PlainName(children[i].name) && CleanSegment(children[i].name) && forall j :: 0 <= j < i ==> children[j].name != children[i].name
  }

  /** Nothing about this one object stops a strict walk. */
  predicate SoundOne(node: Node) {
    && node.metadataOk && !node.kind.Unsupported? && !node.listing.Failed? && (node.kind.Symlink? ==> node.target.Some?)
    && (node.kind.Regular? ==> node.content.Some? && |node.content.value| == node.size)
  }

  /** Nor about anything below it. */
  predicate Sound(node: Node) {
    SoundOne(node) && forall i {:trigger Sound(node.children[i])} :: 0 <= i < |node.children| ==> Sound(node.children[i])
  }

  /** Every directory the walk enters could be listed, or denied the listing; none failed in another way. */
  predicate Readable(oneFileSystem: bool, node: Node)
    decreases node, |node.children| + 1
  {
    || (oneFileSystem && node.otherDevice) || !node.kind.Dir? || node.listing.Denied?
    || (node.listing.Listed? && FirstReadable(oneFileSystem, node, |node.children|))
  }

  predicate FirstReadable(oneFileSystem: bool, node: Node, n: nat)
    requires n <= |node.children|
    decreases node, n
  {
    n == 0 || (FirstReadable(oneFileSystem, node, n - 1) && Readable(oneFileSystem, node.children[n - 1]))
  }

  predicate IsLink(node: Node, links: map<int, string>) { node.kind.Regular? && node.inode.Some? && node.inode.value in links }

  /** The entry recorded for a node: the second name of a file becomes a link to the first. */
  function EntryFor(tar: Tar, node: Node, path: string, links: map<int, string>, offset: int): FileEntry {
    if IsLink(node, links) then FileEntry(path, TYPE_HARDLINK, 0, node.mode, links[node.inode.value], offset, "")
    else if node.kind.Regular? then
      FileEntry(path, TYPE_REGULAR, node.size, node.mode, "", offset, tar.sum(if node.content.Some? then node.content.value else []))
    else FileEntry(path, TypeName(node.kind), 0, node.mode,
                   if node.kind.Symlink? && node.target.Some? then node.target.value else "", offset, "")
  }

  function ContentFor(node: Node, links: map<int, string>): Bytes {
    if node.kind.Regular? && !IsLink(node, links) && node.content.Some? then node.content.value else []
  }

  function LinksAfter(node: Node, path: string, links: map<int, string>): map<int, string> {
    if node.kind.Regular? && node.inode.Some? && !IsLink(node, links) then links[node.inode.value := path] else links
  }

  /** No entry comes after its own path or anything below it: paths are distinct, directories precede their content. */
  ghost predicate ParentsFirst(entries: seq<FileEntry>) {
    forall j :: 0 <= j < |entries| ==> FirstAt(entries, j)
  }

  ghost predicate FirstAt(entries: seq<FileEntry>, j: nat)
    requires j < |entries|
  {
    forall i :: 0 <= i < j ==> !Under(entries[i].path, entries[j].path)
  }

  ghost predicate NoneUnder(entries: seq<FileEntry>, dir: string) {
    forall i :: 0 <= i < |entries| ==> !Under(entries[i].path, dir)
  }

  /** The list was only extended, by paths below the given one. */
  ghost predicate Grew(before: seq<FileEntry>, after: seq<FileEntry>, dir: string) {
    before <= after && forall i :: |before| <= i < |after| ==> Under(after[i].path, dir)
  }

  /** The entry is the node's, and the content its content. */
  predicate Fits(e: FileEntry, item: Item, content: Bytes) {
    var node := item.node;
    && e.path == item.path && e.mode == node.mode
    && (if node.kind.Regular? then e.kind == TYPE_REGULAR || e.kind == TYPE_HARDLINK else e.kind == TypeName(node.kind))
    && (if node.kind.Symlink? then node.target == Some(e.linkTarget) else e.kind != TYPE_HARDLINK ==> e.linkTarget == "")
    && (if node.kind.Regular? && e.kind == TYPE_REGULAR then node.content == Some(content) else content == [])
  }

  /** The recorded type is the object's. */
  lemma FitsTellsKind(e: FileEntry, item: Item, content: Bytes)
    requires Fits(e, item, content) && !item.node.kind.Socket? && !item.node.kind.Unsupported?
    ensures e.kind == "reg" || e.kind == "hard" <==> item.node.kind.Regular?
    ensures e.kind == "dir" <==> item.node.kind.Dir?
    ensures e.kind == "sym" <==> item.node.kind.Symlink?
    ensures e.kind == "chr" <==> item.node.kind.CharDevice?
    ensures e.kind == "blk" <==> item.node.kind.BlockDevice?
    ensures e.kind == "fifo" <==> item.node.kind.Fifo?
  {
    assert "reg"[0] == 'r' && "dir"[0] == 'd' && "sym"[0] == 's' && "hard"[0] == 'h' && "chr"[0] == 'c' && "blk"[0] == 'b' && "fifo"[0] == 'f';
  }

  ghost predicate FitsAll(entries: seq<FileEntry>, items: seq<Item>, contents: seq<Bytes>) {
    |entries| == |items| == |contents| && forall i :: 0 <= i < |entries| ==> FitsAt(entries, items, contents, i)
  }

  predicate FitsAt(entries: seq<FileEntry>, items: seq<Item>, contents: seq<Bytes>, i: nat)
    requires i < |entries| == |items| == |contents|
  {
    Fits(entries[i], items[i], contents[i])
  }

  /** The list was only extended, by the given path. */
  ghost predicate Added(before: seq<FileEntry>, after: seq<FileEntry>, path: string) {
    before <= after && forall i :: |before| <= i < |after| ==> after[i].path == path
  }

  /** Everything a successful walk keeps. */
  ghost predicate Good(tar: Tar, entries: seq<FileEntry>, items: seq<Item>, contents: seq<Bytes>, written: Bytes, pad: nat, links: map<int, string>) {
    && TarLaw(tar) && Tiled(tar, entries, contents, written, pad) && FitsAll(entries, items, contents)
    && LinksOk(entries, items, links) && LinksBack(entries, items) && ParentsFirst(entries)
  }

  lemma TypesKnown(node: Node, path: string, tar: Tar, links: map<int, string>, offset: int)
    ensures KnownType(EntryFor(tar, node, path, links, offset).kind)
    ensures EntryFor(tar, node, path, links, offset).kind == TYPE_HARDLINK <==> IsLink(node, links)
    ensures EntryFor(tar, node, path, links, offset).kind == TYPE_REGULAR <==> node.kind.Regular? && !IsLink(node, links)
  {
    assert "reg"[0] == 'r' && "dir"[0] == 'd' && "sym"[0] == 's' && "hard"[0] == 'h' && "chr"[0] == 'c' && "blk"[0] == 'b' && "fifo"[0] == 'f';
  }

  /** The node can be archived: links can be read, files open and keep their size. */
  predicate Archivable(node: Node, links: map<int, string>) {
    && (node.kind.Symlink? ==> node.target.Some?)
    && (node.kind.Regular? && !IsLink(node, links) ==> node.content.Some? && |node.content.value| == node.size)
  }

  lemma FitsOneMore(tar: Tar, entries: seq<FileEntry>, items: seq<Item>, contents: seq<Bytes>, links: map<int, string>,
                    node: Node, path: string, offset: int)
    requires FitsAll(entries, items, contents) && Archivable(node, links)
    ensures FitsAll(entries + [EntryFor(tar, node, path, links, offset)], items + [Item(path, node)], contents + [ContentFor(node, links)])
  {
    TypesKnown(node, path, tar, links, offset);
    var all := entries + [EntryFor(tar, node, path, links, offset)];
    var both, bodies := items + [Item(path, node)], contents + [ContentFor(node, links)];
    forall i | 0 <= i < |all| ensures FitsAt(all, both, bodies, i) {
      assert i < |entries| ==> FitsAt(entries, items, contents, i);
    }
  }

  lemma PathsOneMore(entries: seq<FileEntry>, e: FileEntry)
    requires ParentsFirst(entries) && NoneUnder(entries, e.path)
    ensures ParentsFirst(entries + [e]) && Added(entries, entries + [e], e.path)
  {
    var all := entries + [e];
    forall j | 0 <= j < |all| ensures FirstAt(all, j) {
      assert j < |entries| ==> FirstAt(entries, j);
    }
  }

  lemma GoodOneMore(tar: Tar, entries: seq<FileEntry>, items: seq<Item>, contents: seq<Bytes>, written: Bytes, pad: nat,
                    links: map<int, string>, node: Node, path: string)
    requires Good(tar, entries, items, contents, written, pad, links) && path != "" && NoneUnder(entries, path)
    requires Archivable(node, links)
    ensures var e := EntryFor(tar, node, path, links, RoundUp(|written|));
            var content := ContentFor(node, links);
            && Good(tar, entries + [e], items + [Item(path, node)], contents + [content],
                    written + Zeros(pad) + tar.header(HeaderOf(e)) + content, Padding(|content|), LinksAfter(node, path, links))
            && Added(entries, entries + [e], path)
  {
    var e := EntryFor(tar, node, path, links, RoundUp(|written|));
    TypesKnown(node, path, tar, links, RoundUp(|written|));
    TiledOffset(tar, entries, contents, written, pad);
    TiledOneMore(tar, entries, contents, written, pad, e, ContentFor(node, links));
    FitsOneMore(tar, entries, items, contents, links, node, path, RoundUp(|written|));
    PathsOneMore(entries, e);
    LinksBackOneMore(entries, items, e, Item(path, node));
    LinksOkOneMore(entries, items, links, e, Item(path, node), LinksAfter(node, path, links));
  }

  // ---------- The walk ----------

  /** What a strict walk must archive, in order: a directory before its content, every child that is not left out. */
  function Items(excluded: string -> bool, oneFileSystem: bool, path: string, node: Node): seq<Item>
    decreases node, |node.children| + 1
  {
    if oneFileSystem && node.otherDevice then (if node.kind.Dir? then Own(excluded, path, node) else [])
    else if !node.kind.Dir? || !node.listing.Listed? then Own(excluded, path, node)
    else Own(excluded, path, node) + Below(excluded, oneFileSystem, path, node, |node.children|)
  }

  function Own(excluded: string -> bool, path: string, node: Node): seq<Item> {
    if excluded(path) || node.kind.Socket? then [] else [Item(path, node)]
  }

  function Below(excluded: string -> bool, oneFileSystem: bool, path: string, node: Node, n: nat): seq<Item>
    requires n <= |node.children|
    decreases node, n
  {
    if n == 0 then []
    else
      Below(excluded, oneFileSystem, path, node, n - 1) +
      Items(excluded, oneFileSystem, ChildPath(path, node.children[n - 1].name), node.children[n - 1])
  }

  function ChildPath(dir: string, name: string): string { dir + "/" + name }

  /** The path lies below one of the first n children. */
  ghost predicate ComesFrom(path: string, dir: string, children: seq<Node>, n: nat)
    requires n <= |children|
  {
    exists j :: 0 <= j < n && Under(path, ChildPath(dir, children[j].name))
  }

  /** Entries from `from` on are the directory itself or come from its first n children. */
  ghost predicate WalkedInto(entries: seq<FileEntry>, from: nat, dir: string, children: seq<Node>, n: nat)
    requires n <= |children|
  {
    forall i :: from <= i < |entries| ==> WalkedAt(entries[i], dir, children, n)
  }

  ghost predicate WalkedAt(e: FileEntry, dir: string, children: seq<Node>, n: nat)
    requires n <= |children|
  {
    e.path == dir || ComesFrom(e.path, dir, children, n)
  }

  lemma DirEntered(before: seq<FileEntry>, entries: seq<FileEntry>, dir: string, children: seq<Node>)
    requires Added(before, entries, dir)
    ensures WalkedInto(entries, |before|, dir, children, 0)
  {
    forall i | |before| <= i < |entries| ensures WalkedAt(entries[i], dir, children, 0) {
    }
  }

  lemma NextChildFree(before: seq<FileEntry>, entries: seq<FileEntry>, dir: string, node: Node, n: nat)
    requires Proper(node) && n < |node.children| && before <= entries && NoneUnder(before, dir)
    requires WalkedInto(entries, |before|, dir, node.children, n)
    ensures NoneUnder(entries, ChildPath(dir, node.children[n].name))
  {
    var name := node.children[n].name;
    assert NamedAt(node.children, n);
    forall i | 0 <= i < |entries| ensures !Under(entries[i].path, ChildPath(dir, name)) {
      var path := entries[i].path;
      assert if i < |before| then before[i] == entries[i] else WalkedAt(entries[i], dir, node.children, n);
      if Under(path, ChildPath(dir, name)) {
        UnderTransitive(path, dir, name);
        var j :| 0 <= j < n && Under(path, ChildPath(dir, node.children[j].name));
        assert NamedAt(node.children, j);
        SiblingsApart(path, dir, node.children[j].name, name);
        assert false;
      }
    }
  }

  lemma ChildWalked(before: seq<FileEntry>, after: seq<FileEntry>, from: nat, dir: string, children: seq<Node>, n: nat)
    requires n < |children| && from <= |before| && WalkedInto(before, from, dir, children, n)
    requires Grew(before, after, ChildPath(dir, children[n].name))
    ensures WalkedInto(after, from, dir, children, n + 1)
  {
    var more := n + 1;
    forall i | from <= i < |after| ensures WalkedAt(after[i], dir, children, more) {
      if i < |before| {
        assert before[i] == after[i] && WalkedAt(before[i], dir, children, n);
      }
    }
  }

  lemma WalkedIsUnder(entries: seq<FileEntry>, from: nat, dir: string, children: seq<Node>, n: nat)
    requires n <= |children| && WalkedInto(entries, from, dir, children, n)
    ensures forall i :: from <= i < |entries| ==> Under(entries[i].path, dir)
  {
    forall i | from <= i < |entries| ensures Under(entries[i].path, dir) {
      assert WalkedAt(entries[i], dir, children, n);
      if entries[i].path != dir {
        var j :| 0 <= j < n && Under(entries[i].path, ChildPath(dir, children[j].name));
        UnderTransitive(entries[i].path, dir, children[j].name);
      }
    }
  }

  class Archive {
    const tar: Tar
    const excluded: string -> bool
    const oneFileSystem: bool
    var written: Bytes
    var pad: nat
    var entries: seq<FileEntry>
    var links: map<int, string>
    var roots: set<string>
    var skipped: nat
    ghost var contents: seq<Bytes>
    ghost var done: seq<Item>

    ghost predicate Inv()
      reads this
    {
      Good(tar, entries, done, contents, written, pad, links)
    }

    constructor (tar: Tar, excluded: string -> bool, oneFileSystem: bool)
      requires TarLaw(tar)
      ensures Inv() && entries == [] && done == [] && roots == {} && written == [] && pad == 0
      ensures this.tar == tar && this.excluded == excluded && this.oneFileSystem == oneFileSystem
    {
      this.tar, this.excluded, this.oneFileSystem := tar, excluded, oneFileSystem;
      written, pad, entries, links, roots, skipped := [], 0, [], map[], {}, 0;
      contents, done := [], [];
    }

    /** The library writes the padding it still owes before the next header. */
    method WriteHeader(h: TarHeader, size: nat)
      modifies this`written, this`pad
      ensures written == old(written) + Zeros(old(pad)) + tar.header(h) && pad == Padding(size)
    {
      written := written + Zeros(pad);
      written := written + tar.header(h);
      pad := Padding(size);
    }

    /** A file that does not open, or whose size changed while it was read, stops the walk. */
    method WriteEntry(path: string, node: Node) returns (ok: bool)
      requires Inv() && path != "" && NoneUnder(entries, path) && (node.kind.Symlink? ==> node.target.Some?)
      modifies this`written, this`pad, this`entries, this`links, this`contents, this`done
      ensures ok <==> Archivable(node, old(links))
      ensures ok ==> Inv() && entries == old(entries) + [EntryFor(tar, node, path, old(links), RoundUp(|old(written)|))]
      ensures ok ==> links == LinksAfter(node, path, old(links))
      ensures ok ==> done == old(done) + [Item(path, node)] && Added(old(entries), entries, path)
    {
      var e := EntryFor(tar, node, path, links, RoundUp(|written|));
      var content := ContentFor(node, links);
      if node.kind.Regular? && !IsLink(node, links) && (node.content.None? || |node.content.value| != node.size) {
        return false;
      }
      GoodOneMore(tar, entries, done, contents, written, pad, links, node, path);
      links := LinksAfter(node, path, links);
      WriteHeader(HeaderOf(e), |content|);
      written := written + content;
      entries, contents, done := entries + [e], contents + [content], done + [Item(path, node)];
      ok := true;
    }

    method EmitOne(path: string, node: Node) returns (ok: bool)
      requires Inv() && path != "" && NoneUnder(entries, path)
      modifies this
      ensures ok ==> Inv() && Added(old(entries), entries, path) && roots == old(roots)
      ensures ok ==> done == old(done) + if excluded(path) || node.kind.Socket? then [] else [Item(path, node)]
      ensures SoundOne(node) ==> ok
      ensures excluded(path) || node.kind.Socket? ==> ok && links == old(links) && written == old(written)
    {
      if excluded(path) {
        skipped := skipped + 1;
        return true;
      }
      if node.kind.Socket? {
        skipped := skipped + 1;
        return true;
      }
      if node.kind.Unsupported? || (node.kind.Symlink? && node.target.None?) || !node.metadataOk {
        return false;
      }
      ok := WriteEntry(path, node);
    }

    /** The first n children of the directory have been walked, starting from the given lists. */
    ghost predicate InDir(path: string, node: Node, n: nat, before: seq<FileEntry>, items: seq<Item>)
      requires n <= |node.children|
      reads this
    {
      && Inv() && before <= entries && WalkedInto(entries, |before|, path, node.children, n) && FirstReadable(oneFileSystem, node, n)
      && done == items + Below(excluded, oneFileSystem, path, node, n)
    }

    method WalkChild(path: string, node: Node, i: nat, ghost before: seq<FileEntry>, ghost items: seq<Item>) returns (ok: bool)
      requires i < |node.children| && InDir(path, node, i, before, items) && NoneUnder(before, path) && Proper(node)
      modifies this
      ensures ok ==> InDir(path, node, i + 1, before, items) && roots == old(roots)
      ensures Sound(node.children[i]) ==> ok
      decreases node, 0
    {
      NextChildFree(before, entries, path, node, i);
      ghost var mid := entries;
      ok := Walk(ChildPath(path, node.children[i].name), node.children[i]);
      if ok {
        ChildWalked(mid, entries, |before|, path, node.children, i);
        ConcatAssociative(items, Below(excluded, oneFileSystem, path, node, i),
                          Items(excluded, oneFileSystem, ChildPath(path, node.children[i].name), node.children[i]));
      }
    }

    /** Each child with everything below it, in name order. */
    method WalkChildren(path: string, node: Node, ghost before: seq<FileEntry>, ghost items: seq<Item>) returns (ok: bool)
      requires InDir(path, node, 0, before, items) && NoneUnder(before, path) && Proper(node)
      modifies this
      ensures ok ==> InDir(path, node, |node.children|, before, items) && roots == old(roots)
      ensures Sound(node) ==> ok
      decreases node, 1
    {
      ok := true;
      for i := 0 to |node.children|
        invariant ok && InDir(path, node, i, before, items) && roots == old(roots)
      {
        assert Sound(node) ==> Sound(node.children[i]);
        ok := WalkChild(path, node, i, before, items);
        if !ok {
          return;
        }
      }
    }

    method WalkBelow(path: string, node: Node, ghost before: seq<FileEntry>) returns (ok: bool)
      requires Inv() && NoneUnder(before, path) && Added(before, entries, path) && Proper(node)
      modifies this
      ensures ok ==> Inv() && Grew(before, entries, path) && roots == old(roots)
      ensures ok ==> done == old(done) + Below(excluded, oneFileSystem, path, node, |node.children|)
      ensures ok ==> FirstReadable(oneFileSystem, node, |node.children|)
      ensures Sound(node) ==> ok
      decreases node, 2
    {
      ConcatEmpty(done);
      DirEntered(before, entries, path, node.children);
      ok := WalkChildren(path, node, before, done);
      if ok {
        WalkedIsUnder(entries, |before|, path, node.children, |node.children|);
      }
    }

    /** One object below a root. Another device is a mount point: its directory is kept, nothing below it is visited. */
    method Walk(path: string, node: Node) returns (ok: bool)
      requires Inv() && path != "" && NoneUnder(entries, path) && Proper(node)
      modifies this
      ensures ok ==> Inv() && Grew(old(entries), entries, path) && roots == old(roots)
      ensures ok ==> done == old(done) + Items(excluded, oneFileSystem, path, node) && Readable(oneFileSystem, node)
      ensures Sound(node) ==> ok
      decreases node, 3
    {
      if oneFileSystem && node.otherDevice {
        ok := true;
        if node.kind.Dir? {
          ok := EmitOne(path, node);
        }
        skipped := skipped + 1;
        return;
      }
      if !node.kind.Dir? {
        ok := EmitOne(path, node);
        return;
      }
      match node.listing {
        case Denied =>
          ok := EmitOne(path, node);
          skipped := skipped + 1;
        case Failed =>
          ok := false;
        case Listed =>
          ok := EmitOne(path, node);
          if ok {
            ok := WalkBelow(path, node, old(entries));
            ConcatAssociative(old(done), Own(excluded, path, node), Below(excluded, oneFileSystem, path, node, |node.children|));
          }
      }
    }

    /** One tree; refused when another root already has its base name. */
    method AddRoot(root: Node) returns (ok: bool)
      requires Inv() && InRoots(entries, roots) && RootName(root.name) && Proper(root)
      modifies this
      ensures ok ==> Inv() && InRoots(entries, roots) && roots == old(roots) + {root.name} && root.name !in old(roots)
      ensures ok ==> done == old(done) + RootItems(excluded, oneFileSystem, root) && RootReadable(oneFileSystem, root)
      ensures root.name !in old(roots) && Addable(oneFileSystem, root) ==> ok
    {
      if root.name in roots {
        return false;
      }
      NewRootFree(entries, roots, root.name);
      roots := roots + {root.name};
      if oneFileSystem && root.otherDevice {
        skipped := skipped + 1;
        ConcatEmpty(done);
        RootAdded(entries, entries, old(roots), root.name);
        return true;
      }
      if root.kind.Dir? && !root.listing.Listed? {
        return false;
      }
      ghost var before, known := entries, roots;
      ok := Walk(root.name, root);
      if ok {
        RootAdded(before, entries, old(roots), root.name);
      }
    }

    /** The first n roots have been archived. */
    ghost predicate RootsIn(nodes: seq<Node>, n: nat)
      requires n <= |nodes|
      reads this
    {
      && Inv() && InRoots(entries, roots) && done == AllItems(excluded, oneFileSystem, nodes, n)
      && roots == NamesOf(nodes, n) && NewRoots(nodes, n) && forall i :: 0 <= i < n ==> RootReadable(oneFileSystem, nodes[i])
    }

    method AddNext(nodes: seq<Node>, i: nat) returns (ok: bool)
      requires i < |nodes| && RootOk(nodes, i) && RootsIn(nodes, i)
      modifies this
      ensures if ok then RootsIn(nodes, i + 1) else Blocks(oneFileSystem, nodes, i)
    {
      ok := AddRoot(nodes[i]);
    }

    /** Every root with everything below it; no two of them may share a base name. */
    method AddRoots(nodes: seq<Node>) returns (ok: bool, ghost at: nat)
      requires RootsIn(nodes, 0) && RootsOk(nodes)
      modifies this
      ensures ok ==> RootsIn(nodes, |nodes|)
      ensures !ok ==> at < |nodes| && Blocks(oneFileSystem, nodes, at)
    {
      ok, at := true, 0;
      for i := 0 to |nodes|
        invariant ok && RootsIn(nodes, i)
      {
        assert RootOk(nodes, i);
        ok := AddNext(nodes, i);
        if !ok {
          return false, i;
        }
      }
    }

    /** The padding still owed and the two closing blocks. */
    method Close() returns (out: Bytes)
      requires Inv()
      ensures out == Joined(tar, entries, contents, |entries|) + Zeros(TRAILER_BYTES)
    {
      out := written + Zeros(pad);
      out := out + Zeros(TRAILER_BYTES);
    }
  }

  // ---------- Several roots ----------

  function NamesOf(nodes: seq<Node>, n: nat): set<string>
    requires n <= |nodes|
  {
    if n == 0 then {} else NamesOf(nodes, n - 1) + {nodes[n - 1].name}
  }

  /** No earlier root has the base name of root i. */
  ghost predicate NewRoot(nodes: seq<Node>, i: nat)
    requires i < |nodes|
  {
    nodes[i].name !in NamesOf(nodes, i)
  }

  ghost predicate NewRoots(nodes: seq<Node>, n: nat)
    requires n <= |nodes|
  {
    forall i :: 0 <= i < n ==> NewRoot(nodes, i)
  }

  /** Root i has a name already taken, or something about it stops a strict walk. */
  ghost predicate Blocks(oneFileSystem: bool, nodes: seq<Node>, i: nat)
    requires i < |nodes|
  {
    !NewRoot(nodes, i) || !Addable(oneFileSystem, nodes[i])
  }

  ghost predicate DistinctNames(nodes: seq<Node>) {
    forall i, j :: 0 <= i < j < |nodes| ==> nodes[i].name != nodes[j].name
  }

  lemma {:induction false} NameAmong(nodes: seq<Node>, n: nat, name: string)
    requires n <= |nodes|
    ensures name in NamesOf(nodes, n) <==> exists i :: 0 <= i < n && nodes[i].name == name
  {
    if n > 0 {
      NameAmong(nodes, n - 1, name);
    }
  }

  lemma NewRootsDistinct(nodes: seq<Node>)
    ensures NewRoots(nodes, |nodes|) <==> DistinctNames(nodes)
  {
    forall j | 0 <= j < |nodes| ensures NewRoot(nodes, j) <==> forall i :: 0 <= i < j ==> nodes[i].name != nodes[j].name {
      NameAmong(nodes, j, nodes[j].name);
    }
    if NewRoots(nodes, |nodes|) {
      forall i, j | 0 <= i < j < |nodes| ensures nodes[i].name != nodes[j].name {
        assert NewRoot(nodes, j);
      }
    }
  }

  /** A root that is passed over, or can be listed and holds nothing that stops a strict walk. */
  predicate Addable(oneFileSystem: bool, root: Node) {
    (oneFileSystem && root.otherDevice) || (Sound(root) && (root.kind.Dir? ==> root.listing.Listed?))
  }

  /** A root that is passed over, or was listed with everything below it. */
  predicate RootReadable(oneFileSystem: bool, root: Node) {
    (oneFileSystem && root.otherDevice) || (Readable(oneFileSystem, root) && (root.kind.Dir? ==> root.listing.Listed?))
  }

  ghost predicate AllAddable(oneFileSystem: bool, roots: seq<Node>) {
    forall i :: 0 <= i < |roots| ==> Addable(oneFileSystem, roots[i])
  }

  ghost predicate InRoots(entries: seq<FileEntry>, roots: set<string>) {
    forall i :: 0 <= i < |entries| ==> RootedAt(entries, roots, i)
  }

  predicate RootedAt(entries: seq<FileEntry>, roots: set<string>, i: nat)
    requires i < |entries|
  {
    RootOf(entries[i].path) in roots
  }

  /** A root on another device than the first is not archived at all. */
  function RootItems(excluded: string -> bool, oneFileSystem: bool, root: Node): seq<Item> {
    if oneFileSystem && root.otherDevice then [] else Items(excluded, oneFileSystem, root.name, root)
  }

  function AllItems(excluded: string -> bool, oneFileSystem: bool, roots: seq<Node>, n: nat): seq<Item>
    requires n <= |roots|
  {
    if n == 0 then [] else AllItems(excluded, oneFileSystem, roots, n - 1) + RootItems(excluded, oneFileSystem, roots[n - 1])
  }

  // ---------- What is archived, place by place ----------

  /** A place below a tree or a list of roots: which child to enter, and where to go from there. */
  datatype Place = Here | Into(child: nat, rest: Place)

  datatype Scope = Tree(path: string, node: Node) | Forest(roots: seq<Node>) {
    function Inside(): seq<Node> { if Tree? then node.children else roots }

    function Enter(c: nat): Scope
      requires c < |Inside()|
    {
      Tree(if Tree? then ChildPath(path, node.children[c].name) else roots[c].name, Inside()[c])
    }

    /** A directory is entered when it can be listed and is on the device of its root, a root when it is on the first device. */
    predicate Enters(oneFileSystem: bool, c: nat) {
      && c < |Inside()|
      && match this
         case Tree(_, node) => node.kind.Dir? && node.listing.Listed? && !(oneFileSystem && node.otherDevice)
         case Forest(roots) => !(oneFileSystem && roots[c].otherDevice)
    }
  }

  /** The object at a place and its archive path: the name of the root, then one name for every level. */
  function ItemAt(scope: Scope, at: Place): Option<Item>
    decreases at
  {
    match at
    case Here => if scope.Tree? then Some(Item(scope.path, scope.node)) else None
    case Into(c, rest) => if c < |scope.Inside()| then ItemAt(scope.Enter(c), rest) else None
  }

  /** Everything above the place is entered. */
  predicate Reached(oneFileSystem: bool, scope: Scope, at: Place)
    decreases at
  {
    match at
    case Here => true
    case Into(c, rest) => scope.Enters(oneFileSystem, c) && Reached(oneFileSystem, scope.Enter(c), rest)
  }

  /** The object is archived: it can be reached, it is neither excluded nor a socket, and on another device only a directory counts. */
  ghost predicate Due(excluded: string -> bool, oneFileSystem: bool, scope: Scope, at: Place) {
    match ItemAt(scope, at)
    case None => false
    case Some(item) =>
      && Reached(oneFileSystem, scope, at) && !excluded(item.path) && !item.node.kind.Socket?
      && (oneFileSystem && item.node.otherDevice ==> item.node.kind.Dir?)
  }

  /** The order of the walk: a directory before its content, the children one after the other. */
  predicate Before(a: Place, b: Place) {
    match (a, b)
    case (_, Here) => false
    case (Here, Into(_, _)) => true
    case (Into(c, x), Into(d, y)) => c < d || (c == d && Before(x, y))
  }

  function First(at: Place): int { if at.Here? then -1 else at.child }

  ghost predicate ListedAt(excluded: string -> bool, oneFileSystem: bool, scope: Scope, items: seq<Item>, places: seq<Place>,
                           lo: int, hi: int, i: nat)
    requires i < |items| == |places|
  {
    Due(excluded, oneFileSystem, scope, places[i]) && ItemAt(scope, places[i]) == Some(items[i]) && lo <= First(places[i]) < hi
  }

  ghost predicate Ascends(places: seq<Place>) {
    forall i, j :: 0 <= i < j < |places| ==> Before(places[i], places[j])
  }

  ghost predicate MissesNone(excluded: string -> bool, oneFileSystem: bool, scope: Scope, places: seq<Place>, lo: int, hi: int) {
    forall at :: Due(excluded, oneFileSystem, scope, at) && lo <= First(at) < hi ==> at in places
  }

  ghost predicate AllListed(excluded: string -> bool, oneFileSystem: bool, scope: Scope, items: seq<Item>, places: seq<Place>, lo: int, hi: int) {
    |places| == |items| && forall i :: 0 <= i < |items| ==> ListedAt(excluded, oneFileSystem, scope, items, places, lo, hi, i)
  }

  /** The items are those of all the places due from child lo up to child hi, each once, in the order of the walk. */
  ghost predicate Lists(excluded: string -> bool, oneFileSystem: bool, scope: Scope, items: seq<Item>, places: seq<Place>, lo: int, hi: int) {
    && AllListed(excluded, oneFileSystem, scope, items, places, lo, hi)
    && Ascends(places) && MissesNone(excluded, oneFileSystem, scope, places, lo, hi)
  }

  lemma ListedJoin(excluded: string -> bool, oneFileSystem: bool, scope: Scope, items: seq<Item>, places: seq<Place>,
                   more: seq<Item>, further: seq<Place>, lo: int, mid: int, hi: int)
    requires lo <= mid <= hi
    requires AllListed(excluded, oneFileSystem, scope, items, places, lo, mid) && AllListed(excluded, oneFileSystem, scope, more, further, mid, hi)
    ensures AllListed(excluded, oneFileSystem, scope, items + more, places + further, lo, hi)
  {
    var all, both := items + more, places + further;
    forall i | 0 <= i < |all| ensures ListedAt(excluded, oneFileSystem, scope, all, both, lo, hi, i) {
      var k := i - |items|;
      assert if k < 0 then ListedAt(excluded, oneFileSystem, scope, items, places, lo, mid, i)
             else ListedAt(excluded, oneFileSystem, scope, more, further, mid, hi, k);
    }
  }

  lemma AscendsJoin(places: seq<Place>, further: seq<Place>, mid: int)
    requires Ascends(places) && Ascends(further)
    requires (forall i :: 0 <= i < |places| ==> First(places[i]) < mid) && (forall i :: 0 <= i < |further| ==> mid <= First(further[i]))
    ensures Ascends(places + further)
  {
    forall i, j | 0 <= i < |places| && 0 <= j < |further| ensures Before(places[i], further[j]) {
      assert First(places[i]) < First(further[j]);
    }
  }

  lemma ListsJoin(excluded: string -> bool, oneFileSystem: bool, scope: Scope, items: seq<Item>, places: seq<Place>,
                  more: seq<Item>, further: seq<Place>, lo: int, mid: int, hi: int)
    requires lo <= mid <= hi
    requires Lists(excluded, oneFileSystem, scope, items, places, lo, mid) && Lists(excluded, oneFileSystem, scope, more, further, mid, hi)
    ensures Lists(excluded, oneFileSystem, scope, items + more, places + further, lo, hi)
  {
    ListedJoin(excluded, oneFileSystem, scope, items, places, more, further, lo, mid, hi);
    forall i | 0 <= i < |places| ensures First(places[i]) < mid {
      assert ListedAt(excluded, oneFileSystem, scope, items, places, lo, mid, i);
    }
    forall i | 0 <= i < |further| ensures mid <= First(further[i]) {
      assert ListedAt(excluded, oneFileSystem, scope, more, further, mid, hi, i);
    }
    AscendsJoin(places, further, mid);
  }

  function Entering(c: nat, places: seq<Place>): seq<Place> { seq(|places|, i requires 0 <= i < |places| => Into(c, places[i])) }

  /** A place inside a child is due exactly when the child is entered and the place is due there. */
  lemma DueInside(excluded: string -> bool, oneFileSystem: bool, scope: Scope, c: nat, rest: Place)
    requires scope.Enters(oneFileSystem, c)
    ensures Due(excluded, oneFileSystem, scope, Into(c, rest)) <==> Due(excluded, oneFileSystem, scope.Enter(c), rest)
    ensures ItemAt(scope, Into(c, rest)) == ItemAt(scope.Enter(c), rest)
    ensures Due(excluded, oneFileSystem, scope, Into(c, rest)) ==> -1 <= First(rest) < |scope.Enter(c).Inside()|
  {
  }

  lemma ListedEnter(excluded: string -> bool, oneFileSystem: bool, scope: Scope, c: nat, items: seq<Item>, places: seq<Place>)
    requires scope.Enters(oneFileSystem, c)
    requires AllListed(excluded, oneFileSystem, scope.Enter(c), items, places, -1, |scope.Enter(c).Inside()|)
    ensures AllListed(excluded, oneFileSystem, scope, items, Entering(c, places), c, c + 1)
  {
    var child, inner, next := scope.Enter(c), Entering(c, places), c + 1;
    forall i | 0 <= i < |items| ensures ListedAt(excluded, oneFileSystem, scope, items, inner, c, next, i) {
      assert ListedAt(excluded, oneFileSystem, child, items, places, -1, |child.Inside()|, i);
      DueInside(excluded, oneFileSystem, scope, c, places[i]);
    }
  }

  /** What is listed inside a child is listed of the child. */
  lemma ListsEnter(excluded: string -> bool, oneFileSystem: bool, scope: Scope, c: nat, items: seq<Item>, places: seq<Place>)
    requires scope.Enters(oneFileSystem, c)
    requires Lists(excluded, oneFileSystem, scope.Enter(c), items, places, -1, |scope.Enter(c).Inside()|)
    ensures Lists(excluded, oneFileSystem, scope, items, Entering(c, places), c, c + 1)
  {
    var inner, next := Entering(c, places), c + 1;
    ListedEnter(excluded, oneFileSystem, scope, c, items, places);
    forall at | Due(excluded, oneFileSystem, scope, at) && c <= First(at) < next ensures at in inner {
      DueInside(excluded, oneFileSystem, scope, c, at.rest);
      var i :| 0 <= i < |places| && places[i] == at.rest;
      assert inner[i] == at;
    }
  }

  /** A child that is not entered lists nothing. */
  lemma ListsNothing(excluded: string -> bool, oneFileSystem: bool, scope: Scope, lo: int, hi: int)
    requires 0 <= lo && forall c: nat :: lo <= c < hi ==> !scope.Enters(oneFileSystem, c)
    ensures Lists(excluded, oneFileSystem, scope, [], [], lo, hi)
  {
    forall at | lo <= First(at) < hi ensures !Due(excluded, oneFileSystem, scope, at) {
      assert !scope.Enters(oneFileSystem, at.child);
    }
  }

  /** The object itself. */
  lemma OwnListed(excluded: string -> bool, oneFileSystem: bool, path: string, node: Node) returns (places: seq<Place>)
    requires oneFileSystem && node.otherDevice ==> node.kind.Dir?
    ensures Lists(excluded, oneFileSystem, Tree(path, node), Own(excluded, path, node), places, -1, 0)
  {
    places := if excluded(path) || node.kind.Socket? then [] else [Here];
    forall at | Due(excluded, oneFileSystem, Tree(path, node), at) && -1 <= First(at) < 0 ensures at in places {
      assert at == Here;
    }
  }

  lemma {:induction false} ItemsListed(excluded: string -> bool, oneFileSystem: bool, path: string, node: Node) returns (places: seq<Place>)
    ensures Lists(excluded, oneFileSystem, Tree(path, node), Items(excluded, oneFileSystem, path, node), places, -1, |node.children|)
    decreases node, |node.children| + 1
  {
    var scope := Tree(path, node);
    if oneFileSystem && node.otherDevice && !node.kind.Dir? {
      places := [];
      MountedFileNotDue(excluded, scope);
    } else {
      var own := OwnListed(excluded, oneFileSystem, path, node);
      var more := [];
      if (oneFileSystem && node.otherDevice) || !node.kind.Dir? || !node.listing.Listed? {
        ListsNothing(excluded, oneFileSystem, scope, 0, |node.children|);
        ListsJoin(excluded, oneFileSystem, scope, Own(excluded, path, node), own, [], more, -1, 0, |node.children|);
        ConcatEmpty(Own(excluded, path, node));
      } else {
        more := BelowListed(excluded, oneFileSystem, path, node, |node.children|);
        ListsJoin(excluded, oneFileSystem, scope, Own(excluded, path, node), own,
                  Below(excluded, oneFileSystem, path, node, |node.children|), more, -1, 0, |node.children|);
      }
      places := own + more;
    }
  }

  lemma MountedFileNotDue(excluded: string -> bool, scope: Scope)
    requires scope.Tree? && scope.node.otherDevice && !scope.node.kind.Dir?
    ensures Lists(excluded, true, scope, [], [], -1, |scope.node.children|)
  {
    forall at ensures !Due(excluded, true, scope, at) {
      if at.Into? {
        assert !scope.Enters(true, at.child);
      }
    }
  }

  lemma {:induction false} BelowListed(excluded: string -> bool, oneFileSystem: bool, path: string, node: Node, n: nat) returns (places: seq<Place>)
    requires n <= |node.children| && node.kind.Dir? && node.listing.Listed? && !(oneFileSystem && node.otherDevice)
    ensures Lists(excluded, oneFileSystem, Tree(path, node), Below(excluded, oneFileSystem, path, node, n), places, 0, n)
    decreases node, n
  {
    var scope := Tree(path, node);
    if n == 0 {
      places := [];
      ListsNothing(excluded, oneFileSystem, scope, 0, 0);
    } else {
      var c := n - 1;
      var child := node.children[c];
      places := BelowListed(excluded, oneFileSystem, path, node, c);
      var inner := ItemsListed(excluded, oneFileSystem, ChildPath(path, child.name), child);
      ListsEnter(excluded, oneFileSystem, scope, c, Items(excluded, oneFileSystem, ChildPath(path, child.name), child), inner);
      ListsJoin(excluded, oneFileSystem, scope, Below(excluded, oneFileSystem, path, node, c), places,
                Items(excluded, oneFileSystem, ChildPath(path, child.name), child), Entering(c, inner), 0, c, n);
      places := places + Entering(c, inner);
    }
  }

  lemma {:induction false} RootsListed(excluded: string -> bool, oneFileSystem: bool, roots: seq<Node>, n: nat) returns (places: seq<Place>)
    requires n <= |roots|
    ensures Lists(excluded, oneFileSystem, Forest(roots), AllItems(excluded, oneFileSystem, roots, n), places, 0, n)
  {
    var scope := Forest(roots);
    if n == 0 {
      places := [];
      ListsNothing(excluded, oneFileSystem, scope, 0, 0);
    } else {
      var c := n - 1;
      var inner := [];
      places := RootsListed(excluded, oneFileSystem, roots, c);
      if oneFileSystem && roots[c].otherDevice {
        ListsNothing(excluded, oneFileSystem, scope, c, n);
      } else {
        inner := ItemsListed(excluded, oneFileSystem, roots[c].name, roots[c]);
        ListsEnter(excluded, oneFileSystem, scope, c, Items(excluded, oneFileSystem, roots[c].name, roots[c]), inner);
        inner := Entering(c, inner);
      }
      ListsJoin(excluded, oneFileSystem, scope, AllItems(excluded, oneFileSystem, roots, c), places,
                RootItems(excluded, oneFileSystem, roots[c]), inner, 0, c, n);
      places := places + inner;
    }
  }

  /** The items are those of all the places due below the roots, each once, in the order of the walk. */
  ghost predicate Enumerates(excluded: string -> bool, oneFileSystem: bool, roots: seq<Node>, items: seq<Item>, places: seq<Place>) {
    && |places| == |items|
    && (forall i :: 0 <= i < |items| ==>
          Due(excluded, oneFileSystem, Forest(roots), places[i]) && ItemAt(Forest(roots), places[i]) == Some(items[i]))
    && Ascends(places) && (forall at :: Due(excluded, oneFileSystem, Forest(roots), at) ==> at in places)
  }

  /** What the walk archives, without the walk. */
  lemma AllItemsEnumerated(excluded: string -> bool, oneFileSystem: bool, roots: seq<Node>) returns (places: seq<Place>)
    ensures Enumerates(excluded, oneFileSystem, roots, AllItems(excluded, oneFileSystem, roots, |roots|), places)
  {
    var items := AllItems(excluded, oneFileSystem, roots, |roots|);
    places := RootsListed(excluded, oneFileSystem, roots, |roots|);
    forall i | 0 <= i < |items|
      ensures Due(excluded, oneFileSystem, Forest(roots), places[i]) && ItemAt(Forest(roots), places[i]) == Some(items[i])
    {
      assert ListedAt(excluded, oneFileSystem, Forest(roots), items, places, 0, |roots|, i);
    }
    forall at | Due(excluded, oneFileSystem, Forest(roots), at) ensures at in places {
      assert 0 <= First(at) < |roots|;
    }
  }

  /** No directory the walk gets to failed to be listed, and no root was denied. */
  ghost predicate NoneUnread(oneFileSystem: bool, scope: Scope, at: Place) {
    match ItemAt(scope, at)
    case None => true
    case Some(item) =>
      Reached(oneFileSystem, scope, at) && item.node.kind.Dir? && !(oneFileSystem && item.node.otherDevice) ==>
        !item.node.listing.Failed? && (scope.Forest? && at.rest.Here? ==> item.node.listing.Listed?)
  }

  lemma {:induction false} ReadableChild(oneFileSystem: bool, node: Node, n: nat, c: nat)
    requires c < n <= |node.children| && FirstReadable(oneFileSystem, node, n)
    ensures Readable(oneFileSystem, node.children[c])
  {
    if c < n - 1 {
      ReadableChild(oneFileSystem, node, n - 1, c);
    }
  }

  lemma {:induction false} ReadableMeans(oneFileSystem: bool, path: string, node: Node, at: Place)
    requires Readable(oneFileSystem, node)
    ensures NoneUnread(oneFileSystem, Tree(path, node), at)
    decreases at
  {
    var scope := Tree(path, node);
    if at.Into? && scope.Enters(oneFileSystem, at.child) {
      ReadableChild(oneFileSystem, node, |node.children|, at.child);
      ReadableMeans(oneFileSystem, scope.Enter(at.child).path, node.children[at.child], at.rest);
    }
  }

  lemma RootsReadable(oneFileSystem: bool, roots: seq<Node>)
    requires forall i :: 0 <= i < |roots| ==> RootReadable(oneFileSystem, roots[i])
    ensures forall at :: NoneUnread(oneFileSystem, Forest(roots), at)
  {
    forall at ensures NoneUnread(oneFileSystem, Forest(roots), at) {
      if at.Into? && Forest(roots).Enters(oneFileSystem, at.child) {
        assert RootReadable(oneFileSystem, roots[at.child]);
        ReadableMeans(oneFileSystem, roots[at.child].name, roots[at.child], at.rest);
      }
    }
  }

  /** An object is archived under a path exactly when a place with that path and object is due. */
  lemma ArchivedIffDue(excluded: string -> bool, oneFileSystem: bool, roots: seq<Node>, item: Item)
    ensures item in AllItems(excluded, oneFileSystem, roots, |roots|) <==>
            exists at :: Due(excluded, oneFileSystem, Forest(roots), at) && ItemAt(Forest(roots), at) == Some(item)
  {
    var places := AllItemsEnumerated(excluded, oneFileSystem, roots);
    var items := AllItems(excluded, oneFileSystem, roots, |roots|);
    if item in items {
      var i :| 0 <= i < |items| && items[i] == item;
      assert ItemAt(Forest(roots), places[i]) == Some(item);
    }
    if at :| Due(excluded, oneFileSystem, Forest(roots), at) && ItemAt(Forest(roots), at) == Some(item) {
      var i :| 0 <= i < |places| && places[i] == at;
      assert items[i] == item;
    }
  }

  lemma NewRootFree(entries: seq<FileEntry>, roots: set<string>, name: string)
    requires InRoots(entries, roots) && name !in roots && RootName(name)
    ensures NoneUnder(entries, name)
  {
    forall i | 0 <= i < |entries| ensures !Under(entries[i].path, name) {
      assert RootedAt(entries, roots, i);
      if Under(entries[i].path, name) {
        UnderRoot(entries[i].path, name);
        assert false;
      }
    }
  }

  lemma RootAdded(before: seq<FileEntry>, after: seq<FileEntry>, roots: set<string>, name: string)
    requires InRoots(before, roots) && RootName(name) && Grew(before, after, name)
    ensures InRoots(after, roots + {name})
  {
    forall i | 0 <= i < |after| ensures RootedAt(after, roots + {name}, i) {
      if i < |before| {
        assert before[i] == after[i] && RootedAt(before, roots, i);
      } else {
        UnderRoot(after[i].path, name);
      }
    }
  }

  /** A finished archive: every item that was due, once, at its place, under a fresh trailer. */
  ghost predicate Archived(tar: Tar, out: Bytes, entries: seq<FileEntry>, items: seq<Item>, contents: seq<Bytes>) {
    && FitsAll(entries, items, contents) && out == Joined(tar, entries, contents, |entries|) + Zeros(TRAILER_BYTES)
    && (forall i :: 0 <= i < |entries| ==> EntryAt(tar, entries, contents, i))
    && ParentsFirst(entries) && LinksBack(entries, items) && (exists links :: LinksOk(entries, items, links))
  }

  lemma GoodIsArchived(tar: Tar, entries: seq<FileEntry>, items: seq<Item>, contents: seq<Bytes>, written: Bytes, pad: nat,
                       links: map<int, string>)
    requires Good(tar, entries, items, contents, written, pad, links)
    ensures Archived(tar, Joined(tar, entries, contents, |entries|) + Zeros(TRAILER_BYTES), entries, items, contents)
  {
  }

  /** The content an entry stores: that of its file, once. */
  function ContentOf(e: FileEntry, item: Item): Bytes {
    if item.node.kind.Regular? && e.kind == TYPE_REGULAR && item.node.content.Some? then item.node.content.value else []
  }

  function ContentsOf(entries: seq<FileEntry>, items: seq<Item>): seq<Bytes>
    requires |entries| == |items|
  {
    seq(|entries|, i requires 0 <= i < |entries| => ContentOf(entries[i], items[i]))
  }

  lemma ContentsAreTheirs(entries: seq<FileEntry>, items: seq<Item>, contents: seq<Bytes>)
    requires FitsAll(entries, items, contents)
    ensures contents == ContentsOf(entries, items)
  {
    forall i | 0 <= i < |entries| ensures contents[i] == ContentsOf(entries, items)[i] {
      assert FitsAt(entries, items, contents, i);
    }
  }

  ghost predicate RootsOk(roots: seq<Node>) {
    forall i :: 0 <= i < |roots| ==> RootOk(roots, i)
  }

  ghost predicate RootOk(roots: seq<Node>, i: nat)
    requires i < |roots|
  {
    RootName(roots[i].name) && Proper(roots[i])
  }

  /** All roots, or an error: the strict walk leaves nothing out in silence. */
  method ArchiveRoots(tar: Tar, excluded: string -> bool, oneFileSystem: bool, roots: seq<Node>)
    returns (ok: bool, out: Bytes, entries: seq<FileEntry>)
    requires TarLaw(tar) && RootsOk(roots)
    ensures DistinctNames(roots) && AllAddable(oneFileSystem, roots) ==> ok
    ensures ok ==> DistinctNames(roots)
    ensures ok ==>
              var items := AllItems(excluded, oneFileSystem, roots, |roots|);
              |entries| == |items| && Archived(tar, out, entries, items, ContentsOf(entries, items))
    ensures ok ==> exists places :: Enumerates(excluded, oneFileSystem, roots, AllItems(excluded, oneFileSystem, roots, |roots|), places)
    ensures ok ==> forall at :: NoneUnread(oneFileSystem, Forest(roots), at)
  {
    var a := new Archive(tar, excluded, oneFileSystem);
    NewRootsDistinct(roots);
    ghost var at;
    ok, at := a.AddRoots(roots);
    if !ok {
      return false, [], [];
    }
    GoodIsArchived(tar, a.entries, a.done, a.contents, a.written, a.pad, a.links);
    ContentsAreTheirs(a.entries, a.done, a.contents);
    out := a.Close();
    entries := a.entries;
    ghost var places := AllItemsEnumerated(excluded, oneFileSystem, roots);
    RootsReadable(oneFileSystem, roots);
  }

  // ---------- What the reader relies on ----------

  /** Offsets are multiples of a block, strictly increasing, and each record ends where the next begins. */
  lemma OffsetsTile(tar: Tar, out: Bytes, entries: seq<FileEntry>, items: seq<Item>, contents: seq<Bytes>, i: nat)
    requires TarLaw(tar) && Archived(tar, out, entries, items, contents) && i < |entries|
    ensures entries[i].tarOffset % BLOCK == 0 && (i == 0 ==> entries[i].tarOffset == 0)
    ensures var end := if i + 1 < |entries| then entries[i + 1].tarOffset else |out| - TRAILER_BYTES;
            && 0 <= entries[i].tarOffset < end <= |out| - TRAILER_BYTES
            && out[entries[i].tarOffset..end] == RecordOf(tar, entries[i], contents[i])
    ensures GrowingOffsets(entries)
  {
    assert EntryAt(tar, entries, contents, i);
    JoinedBlocks(tar, entries, contents, i);
    RecordLength(tar, entries[i], contents[i]);
    if i + 1 < |entries| {
      assert EntryAt(tar, entries, contents, i + 1);
    }
    JoinedHolds(tar, entries, contents, i, |entries|);
    SliceOfConcat(Joined(tar, entries, contents, |entries|), Zeros(TRAILER_BYTES), entries[i].tarOffset,
                  |Joined(tar, entries, contents, i + 1)|);
    OffsetsGrow(tar, entries, contents);
  }

  lemma OffsetsGrow(tar: Tar, entries: seq<FileEntry>, contents: seq<Bytes>)
    requires TarLaw(tar) && |entries| == |contents| && forall i :: 0 <= i < |entries| ==> EntryAt(tar, entries, contents, i)
    ensures GrowingOffsets(entries)
  {
    forall i, j | 0 <= i < j < |entries| ensures entries[i].tarOffset < entries[j].tarOffset {
      assert EntryAt(tar, entries, contents, i) && EntryAt(tar, entries, contents, j);
      JoinedGrows(tar, entries, contents, i, j);
    }
  }

  lemma {:induction false} JoinedHolds(tar: Tar, entries: seq<FileEntry>, contents: seq<Bytes>, i: nat, n: nat)
    requires i < n <= |entries| == |contents|
    ensures |Joined(tar, entries, contents, i)| <= |Joined(tar, entries, contents, i + 1)| <= |Joined(tar, entries, contents, n)|
    ensures Joined(tar, entries, contents, n)[|Joined(tar, entries, contents, i)|..|Joined(tar, entries, contents, i + 1)|]
         == RecordOf(tar, entries[i], contents[i])
  {
    if i + 1 < n {
      JoinedHolds(tar, entries, contents, i, n - 1);
      SliceOfConcat(Joined(tar, entries, contents, n - 1), RecordOf(tar, entries[n - 1], contents[n - 1]),
                    |Joined(tar, entries, contents, i)|, |Joined(tar, entries, contents, i + 1)|);
    } else {
      SliceOfConcat(Joined(tar, entries, contents, i), RecordOf(tar, entries[i], contents[i]), 0, 0);
    }
  }

  lemma PathsDistinct(entries: seq<FileEntry>)
    requires ParentsFirst(entries)
    ensures forall i, j :: 0 <= i < j < |entries| ==> entries[i].path != entries[j].path
  {
    forall i, j | 0 <= i < j < |entries| ensures entries[i].path != entries[j].path {
      assert FirstAt(entries, j);
    }
  }

  /** What the index format asks of an entry beyond what every walk gives. */
  predicate Storable(e: FileEntry) {
    && |e.path| <= MAX_PATH_BYTES && |e.linkTarget| <= MAX_PATH_BYTES && ValidMode(e.mode)
    && (e.kind == TYPE_SYMLINK ==> e.linkTarget != "")
  }

  /** The index of a finished archive is valid exactly when each entry fits the format and there are not too many. */
  lemma ArchivedIsValid(tar: Tar, out: Bytes, entries: seq<FileEntry>, items: seq<Item>, contents: seq<Bytes>)
    requires TarLaw(tar) && Archived(tar, out, entries, items, contents)
    ensures ValidEntries(entries) <==> |entries| <= MAX_INDEX_ENTRIES && forall i :: 0 <= i < |entries| ==> Storable(entries[i])
  {
    OffsetsGrow(tar, entries, contents);
    PathsDistinct(entries);
    forall i | 0 <= i < |entries| ensures EntryOk(entries[i]) <==> Storable(entries[i]) {
      assert EntryAt(tar, entries, contents, i) && SumAt(tar, contents[i]);
      if entries[i].kind == TYPE_HARDLINK {
        var j := LinkTargetNamed(tar, entries, items, contents, i);
      }
    }
  }

  lemma LinkTargetNamed(tar: Tar, entries: seq<FileEntry>, items: seq<Item>, contents: seq<Bytes>, i: nat) returns (j: nat)
    requires |entries| == |items| == |contents| && i < |entries| && entries[i].kind == TYPE_HARDLINK && LinksBack(entries, items)
    requires forall j :: 0 <= j < |entries| ==> EntryAt(tar, entries, contents, j)
    ensures entries[i].linkTarget != "" && j < i && entries[j].path == entries[i].linkTarget
  {
    assert LinkAt(entries, items, i);
    var key := items[i].node.inode.value;
    assert NamesFile(entries, items, i, entries[i].linkTarget, key);
    j :| 0 <= j < i && entries[j].path == entries[i].linkTarget && entries[j].kind == TYPE_REGULAR && items[j].node.inode == Some(key);
    assert EntryAt(tar, entries, contents, j);
  }

  /** What the index format asks of an object on disk: a path, a mode and a link target it can hold. */
  predicate ItemFits(item: Item) {
    && |item.path| <= MAX_PATH_BYTES && ValidMode(item.node.mode)
    && (item.node.kind.Symlink? && item.node.target.Some? ==> 0 < |item.node.target.value| <= MAX_PATH_BYTES)
  }

  ghost predicate AllItemsFit(items: seq<Item>) {
    |items| <= MAX_INDEX_ENTRIES && forall i :: 0 <= i < |items| ==> ItemFits(items[i])
  }

  lemma StorableIffFits(entries: seq<FileEntry>, items: seq<Item>, contents: seq<Bytes>, i: nat)
    requires FitsAll(entries, items, contents) && i < |entries|
    requires entries[i].kind != TYPE_HARDLINK
    ensures Storable(entries[i]) <==> ItemFits(items[i])
  {
    assert FitsAt(entries, items, contents, i);
    assert entries[i].kind == TYPE_SYMLINK <==> items[i].node.kind.Symlink? by {
      assert "reg"[0] == 'r' && "dir"[0] == 'd' && "sym"[0] == 's' && "hard"[0] == 'h' && "chr"[0] == 'c' && "blk"[0] == 'b' && "fifo"[0] == 'f';
    }
  }

  lemma StorableLink(entries: seq<FileEntry>, items: seq<Item>, contents: seq<Bytes>, i: nat, j: nat)
    requires FitsAll(entries, items, contents) && j < i < |entries| && ItemFits(items[j])
    requires entries[i].kind == TYPE_HARDLINK && entries[i].linkTarget == entries[j].path
    ensures Storable(entries[i]) <==> ItemFits(items[i])
  {
    assert FitsAt(entries, items, contents, i) && FitsAt(entries, items, contents, j);
    assert items[i].node.kind.Regular? by {
      assert "hard"[0] == 'h' && "reg"[0] == 'r' && "dir"[0] == 'd' && "sym"[0] == 's' && "chr"[0] == 'c' && "blk"[0] == 'b' && "fifo"[0] == 'f';
    }
  }

  /** The first n entries can be stored exactly when the first n objects fit. */
  lemma {:induction false} StorableUpTo(tar: Tar, entries: seq<FileEntry>, items: seq<Item>, contents: seq<Bytes>, n: nat)
    requires FitsAll(entries, items, contents) && LinksBack(entries, items) && n <= |entries|
    requires forall i :: 0 <= i < |entries| ==> EntryAt(tar, entries, contents, i)
    ensures (forall i :: 0 <= i < n ==> Storable(entries[i])) <==> (forall i :: 0 <= i < n ==> ItemFits(items[i]))
  {
    if n > 0 {
      StorableUpTo(tar, entries, items, contents, n - 1);
      if entries[n - 1].kind != TYPE_HARDLINK {
        StorableIffFits(entries, items, contents, n - 1);
      } else {
        var j := LinkTargetNamed(tar, entries, items, contents, n - 1);
        if ItemFits(items[j]) {
          StorableLink(entries, items, contents, n - 1, j);
        }
      }
    }
  }

  /** The index of a finished archive is valid exactly when every object on disk fits the format and there are not too many. */
  lemma ArchivedFits(tar: Tar, out: Bytes, entries: seq<FileEntry>, items: seq<Item>, contents: seq<Bytes>)
    requires TarLaw(tar) && Archived(tar, out, entries, items, contents)
    ensures ValidEntries(entries) <==> AllItemsFit(items)
  {
    ArchivedIsValid(tar, out, entries, items, contents);
    StorableUpTo(tar, entries, items, contents, |entries|);
  }

  /** A file with several names is stored once: no two regular entries share an inode. */
  lemma StoredOnce(tar: Tar, out: Bytes, entries: seq<FileEntry>, items: seq<Item>, contents: seq<Bytes>, i: nat, j: nat)
    requires Archived(tar, out, entries, items, contents) && i < |entries| && j < |entries|
    requires entries[i].kind == TYPE_REGULAR && entries[j].kind == TYPE_REGULAR
    requires items[i].node.inode.Some? && items[i].node.inode == items[j].node.inode
    ensures i == j
  {
    var links :| LinksOk(entries, items, links);
    PathsDistinct(entries);
    assert RememberedAt(entries, items, links, i) && RememberedAt(entries, items, links, j);
  }
}