/** `walkDir`, the recursive directory listing, and the audio-extension filter the
    directory scan applies to its result.

    A directory tree is a value: an entry is a name and a node, and a node is either a
    directory with its listing (in `readdirSync` order), a directory whose listing fails
    (`readdirSync` throws), or something that is not a directory (a file, a symbolic link,
    a socket, ...). `walkDir` pushes `path.join(dir, name)` for every non-directory entry
    and recurses into every directory, depth first in listing order. */
module Walk {
  import opened Common

  datatype Node = NonDir | Dir(entries: seq<Entry>) | LockedDir
  datatype Entry = Entry(name: string, node: Node)

  /** `ent.isDirectory()`. */
  predicate IsDirectory(n: Node) {
    n.Dir? || n.LockedDir?
  }

  /** The paths `walkDir(dir)` collects below the node at `dir`, or `None` when it throws:
      the node is not a directory, or some directory reached cannot be listed. */
  function Walked(dir: string, node: Node): Option<seq<string>>
    decreases node, 1
  {
    match node
    case NonDir => None
    case LockedDir => None
    case Dir(ents) => WalkEntries(dir, node, |ents|)
  }

  /** What the loop of `walkDir` has collected after the first `k` entries of `parent`. */
  function WalkEntries(dir: string, parent: Node, k: nat): Option<seq<string>>
    requires parent.Dir? && k <= |parent.entries|
    decreases parent, 0, k
  {
    if k == 0 then Some([])
    else
      match WalkEntries(dir, parent, k - 1)
      case None => None
      case Some(before) =>
        var e := parent.entries[k - 1];
        var full := Join(dir, e.name);
        if !IsDirectory(e.node) then Some(before + [full])
        else
          match Walked(full, e.node)
          case None => None
          case Some(inner) => Some(before + inner)
  }

  /** `files` with the walk's paths appended, or `None` when the walk throws. */
  function Appended(files: seq<string>, walked: Option<seq<string>>): Option<seq<string>> {
    match walked
    case None => None
    case Some(fs) => Some(files + fs)
  }

  /** Once an entry's walk has thrown, the walk of the whole listing throws. */
  lemma {:induction false} FailureIsFinal(dir: string, parent: Node, k: nat, m: nat)
    requires parent.Dir? && k <= m <= |parent.entries|
    requires WalkEntries(dir, parent, k).None?
    ensures WalkEntries(dir, parent, m).None?
    decreases m - k
  {
    if k < m {
      FailureIsFinal(dir, parent, k + 1, m);
    }
  }

  /** `walkDir(dir, files)`: lists `dir` and, for each entry in listing order, recurses into
      a directory with the same accumulator or pushes the entry's path. `None` stands for
      the exception `readdirSync` raises, which the walk does not catch. */
  method WalkDir(dir: string, node: Node, files: seq<string>) returns (r: Option<seq<string>>)
    ensures r == Appended(files, Walked(dir, node))
    decreases node
  {
    if !node.Dir? {
      return None;
    }
    var ents := node.entries;
    var acc := files;
    for i := 0 to |ents|
      invariant WalkEntries(dir, node, i).Some?
      invariant acc == files + WalkEntries(dir, node, i).value
    {
      var ent := ents[i];
      var full := Join(dir, ent.name);
      if IsDirectory(ent.node) {
        var sub := WalkDir(full, ent.node, acc);
        if sub.None? {
          FailureIsFinal(dir, node, i + 1, |ents|);
          return None;
        }
        acc := sub.value;
      } else {
        acc := acc + [full];
      }
    }
    return Some(acc);
  }

  // ---------------------------------------------------------------------------
  // What the walk finds, stated without its order

  /** `p` is the path of a non-directory entry somewhere below the directory `node` at
      `dir`. */
  ghost predicate FileUnder(dir: string, node: Node, p: string)
    decreases node, 2
  {
    node.Dir? && InFirstEntries(dir, node, |node.entries|, p)
  }

  /** `p` is found at or below one of the first `k` entries of `parent`. */
  ghost predicate InFirstEntries(dir: string, parent: Node, k: nat, p: string)
    requires parent.Dir? && k <= |parent.entries|
    decreases parent, 1
  {
    exists i :: 0 <= i < k && EntryHolds(dir, parent, i, p)
  }

  /** `p` is the `i`-th entry of `parent` itself (when that is not a directory) or lies
      below it. */
  ghost predicate EntryHolds(dir: string, parent: Node, i: nat, p: string)
    requires parent.Dir? && i < |parent.entries|
    decreases parent, 0
  {
    var e := parent.entries[i];
    var full := Join(dir, e.name);
    if !IsDirectory(e.node) then p == full else FileUnder(full, e.node, p)
  }

  /** Every directory reached can be listed, starting with the root. */
  predicate Listable(node: Node)
    decreases node
  {
    node.Dir? &&
    forall i :: 0 <= i < |node.entries| ==>
      (IsDirectory(node.entries[i].node) ==> Listable(node.entries[i].node))
  }

  /** The walk returns exactly the non-directory entries below the root. */
  lemma {:induction false} WalkedFindsFiles(dir: string, node: Node, p: string)
    requires Walked(dir, node).Some?
    ensures p in Walked(dir, node).value <==> FileUnder(dir, node, p)
    decreases node, 2
  {
    WalkEntriesFinds(dir, node, |node.entries|, p);
  }

  lemma {:induction false} WalkEntriesFinds(dir: string, parent: Node, k: nat, p: string)
    requires parent.Dir? && k <= |parent.entries|
    requires WalkEntries(dir, parent, k).Some?
    ensures p in WalkEntries(dir, parent, k).value <==> InFirstEntries(dir, parent, k, p)
    decreases parent, 1, k
  {
    if k > 0 {
      WalkEntriesFinds(dir, parent, k - 1, p);
      var before := WalkEntries(dir, parent, k - 1).value;
      var e := parent.entries[k - 1];
      var full := Join(dir, e.name);
      var here := if !IsDirectory(e.node) then [full] else Walked(full, e.node).value;
      if IsDirectory(e.node) {
        WalkedFindsFiles(full, e.node, p);
      }
      assert WalkEntries(dir, parent, k).value == before + here;
      assert p in here <==> EntryHolds(dir, parent, k - 1, p);
      if InFirstEntries(dir, parent, k, p) {
        var i :| 0 <= i < k && EntryHolds(dir, parent, i, p);
        if i < k - 1 {
          assert InFirstEntries(dir, parent, k - 1, p);
        }
      }
      if InFirstEntries(dir, parent, k - 1, p) {
        var i :| 0 <= i < k - 1 && EntryHolds(dir, parent, i, p);
        assert 0 <= i < k && EntryHolds(dir, parent, i, p);
      }
      if EntryHolds(dir, parent, k - 1, p) {
        assert InFirstEntries(dir, parent, k, p);
      }
    }
  }

  /** The walk throws exactly when the root is not a directory or some directory below
      it cannot be listed: errors propagate, nothing is skipped. */
  lemma {:induction false} WalkSucceedsIff(dir: string, node: Node)
    ensures Walked(dir, node).Some? <==> Listable(node)
    decreases node, 1
  {
    if node.Dir? {
      WalkEntriesSucceedsIff(dir, node, |node.entries|);
    }
  }

  lemma {:induction false} WalkEntriesSucceedsIff(dir: string, parent: Node, k: nat)
    requires parent.Dir? && k <= |parent.entries|
    ensures WalkEntries(dir, parent, k).Some? <==>
            forall i :: 0 <= i < k ==>
              (IsDirectory(parent.entries[i].node) ==> Listable(parent.entries[i].node))
    decreases parent, 0, k
  {
    if k > 0 {
      WalkEntriesSucceedsIff(dir, parent, k - 1);
      var e := parent.entries[k - 1];
      if IsDirectory(e.node) {
        WalkSucceedsIff(Join(dir, e.name), e.node);
      }
    }
  }

  // ---------------------------------------------------------------------------
  // The audio-extension filter of the directory scan

  /** The test `/\.(mp3|m4a|aac|flac|wav|ogg|opus)$/i`: the path ends, ignoring ASCII case,
      with a dot and one of the seven audio extensions. (Without the `u` flag, JavaScript
      case-insensitive matching maps no non-ASCII character onto these ASCII letters.) */
  predicate IsAudioFile(f: string) {
    var l := Lower(f);
    EndsWith(l, ".mp3") || EndsWith(l, ".m4a") || EndsWith(l, ".aac") || EndsWith(l, ".flac")
    || EndsWith(l, ".wav") || EndsWith(l, ".ogg") || EndsWith(l, ".opus")
  }

  /** `all.filter(f => /.../i.test(f))`. */
  function AudioFiles(all: seq<string>): seq<string> {
    if all == [] then []
    else AudioFiles(all[..|all| - 1]) + (if IsAudioFile(all[|all| - 1]) then [all[|all| - 1]] else [])
  }

  /** The filter keeps exactly the audio paths. */
  lemma {:induction false} AudioFilesMembers(all: seq<string>)
    ensures forall f :: f in AudioFiles(all) <==> f in all && IsAudioFile(f)
    ensures |AudioFiles(all)| <= |all|
  {
    if all != [] {
      AudioFilesMembers(all[..|all| - 1]);
      assert all == all[..|all| - 1] + [all[|all| - 1]];
    }
  }

  /** The filter keeps the walk's order: filtering a concatenation filters each part. */
  lemma {:induction false} AudioFilesDistributes(a: seq<string>, b: seq<string>)
    ensures AudioFiles(a + b) == AudioFiles(a) + AudioFiles(b)
    decreases |b|
  {
    if b == [] {
      assert a + b == a;
    } else {
      var b' := b[..|b| - 1];
      var last := b[|b| - 1];
      var tail := if IsAudioFile(last) then [last] else [];
      assert (a + b)[..|a + b| - 1] == a + b';
      assert (a + b)[|a + b| - 1] == last;
      assert AudioFiles(a + b) == AudioFiles(a + b') + tail;
      assert AudioFiles(b) == AudioFiles(b') + tail;
      AudioFilesDistributes(a, b');
    }
  }

  /** A path without upper-case letters is its own lower-case form. */
  lemma LowerOfLower(s: string)
    requires forall i :: 0 <= i < |s| ==> !IsUpperAscii(s[i])
    ensures Lower(s) == s
  {
  }

  /** The test ignores case. */
  lemma AudioFilterAcceptsAnyCase()
    ensures IsAudioFile("/music/Song.MP3") && IsAudioFile("/music/track.Opus")
  {
    var up, mixed := "/music/Song.MP3", "/music/track.Opus";
    assert Lower(up)[|up| - 4..] == ".mp3";
    assert Lower(mixed)[|mixed| - 5..] == ".opus";
  }

  /** Other extensions fail the test. */
  lemma AudioFilterRejectsImages()
    ensures !IsAudioFile("/music/cover.jpg")
  {
    var jpg := "/music/cover.jpg";
    LowerOfLower(jpg);
    assert jpg[|jpg| - 1] == 'g' && jpg[|jpg| - 2] == 'p';
  }

  /** An audio extension without its dot fails the test. */
  lemma AudioFilterNeedsTheDot()
    ensures !IsAudioFile("/music/mp3")
  {
    var bare := "/music/mp3";
    LowerOfLower(bare);
    assert bare[|bare| - 4] == '/' && bare[|bare| - 5] == 'c';
  }

  /** Paths that differ only in ASCII case are kept or dropped together. */
  lemma AudioFilterIgnoresCase(f: string, g: string)
    requires Lower(f) == Lower(g)
    ensures IsAudioFile(f) == IsAudioFile(g)
  {
  }
}
