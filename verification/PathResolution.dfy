/** Path names: splitting into parts, resolving, and resolving a file's directory and name
    apart (directory.c). */
module PathResolution {
  import opened Storage
  import opened Splitting

  const SEPARATOR: Byte := 47     // '/'
  const NAME_MAX: nat := 14
  const PATH_MAX: nat := 256
  const DOTDOT: seq<Byte> := [46, 46]

  /** The directory tree as path resolution sees it: what a name in a directory leads to, which
      inodes are directories, and which are to be removed. */
  datatype Tree = Tree(root: nat, cwd: nat, lookup: (nat, seq<Byte>) -> Option<nat>, isDir: nat -> bool, removed: nat -> bool)

  function Parts(path: seq<Byte>): seq<seq<Byte>> {
    Tokens(SEPARATOR, path)
  }

  // ---------- What a path means ----------

  /** From `cur` along `parts`: nothing when a part is too long or not found, or when a
      directory on the way or the end is to be removed. */
  function Walk(t: Tree, cur: nat, parts: seq<seq<Byte>>): Option<nat>
    decreases |parts|
  {
    if parts == [] then if t.removed(cur) then None else Some(cur)
    else if |parts[0]| > NAME_MAX || t.removed(cur) then None
    else
      match t.lookup(cur, parts[0])
      case None => None
      case Some(next) => Walk(t, next, parts[1..])
  }

  function Origin(t: Tree, path: seq<Byte>): nat {
    if path != [] && path[0] == SEPARATOR then t.root else t.cwd
  }

  function Resolve(t: Tree, path: seq<Byte>): Option<nat> {
    if path == [SEPARATOR] then Some(t.root) else Walk(t, Origin(t, path), Parts(path))
  }

  /** dir_lookup fails an ASSERT when a directory on the way has no entry "..". */
  predicate WalkPanics(t: Tree, cur: nat, parts: seq<seq<Byte>>)
    decreases |parts|
  {
    && parts != [] && |parts[0]| <= NAME_MAX
    && match t.lookup(cur, parts[0])
       case None => parts[0] == DOTDOT
       case Some(next) => !t.removed(cur) && WalkPanics(t, next, parts[1..])
  }

  predicate Panics(t: Tree, path: seq<Byte>) {
    path != [SEPARATOR] && WalkPanics(t, Origin(t, path), Parts(path))
  }

  /** One name in one directory. */
  function InDirectory(t: Tree, dir: nat, name: seq<Byte>): Option<nat> {
    Walk(t, dir, [name])
  }

  lemma {:induction false} WalkSplit(t: Tree, cur: nat, parts: seq<seq<Byte>>, last: seq<Byte>)
    ensures Walk(t, cur, parts + [last]) ==
              match Walk(t, cur, parts) case None => None case Some(dir) => InDirectory(t, dir, last)
    decreases |parts|
  {
    if parts == [] {
      assert parts + [last] == [last];
    } else {
      assert (parts + [last])[1..] == parts[1..] + [last];
      match t.lookup(cur, parts[0])
      case None =>
      case Some(next) => WalkSplit(t, next, parts[1..], last);
    }
  }

  // ---------- Parts that are not directories ----------

  /** Where the lookups along `parts` lead, whether or not the end is to be removed. */
  function Node(t: Tree, cur: nat, parts: seq<seq<Byte>>): Option<nat>
    decreases |parts|
  {
    if parts == [] then Some(cur)
    else if |parts[0]| > NAME_MAX || t.removed(cur) then None
    else
      match t.lookup(cur, parts[0])
      case None => None
      case Some(next) => Node(t, next, parts[1..])
  }

  /** A walk fails that ASSERT exactly when it comes to an inode without ".." and that is the
      next part. */
  lemma {:induction false} PanicsExactly(t: Tree, cur: nat, parts: seq<seq<Byte>>)
    ensures WalkPanics(t, cur, parts) <==>
      exists k :: 0 <= k < |parts| && parts[k] == DOTDOT &&
        var x := Node(t, cur, parts[..k]); x.Some? && t.lookup(x.value, DOTDOT).None?
    decreases |parts|
  {
    if parts != [] && |parts[0]| <= NAME_MAX {
      if t.lookup(cur, parts[0]).Some? {
        var next, rest := t.lookup(cur, parts[0]).value, parts[1..];
        PanicsExactly(t, next, rest);
        forall k | 0 < k < |parts|
          ensures Node(t, cur, parts[..k]) == if t.removed(cur) then None else Node(t, next, rest[..k - 1])
        {
          assert parts[..k][1..] == rest[..k - 1];
        }
        if WalkPanics(t, cur, parts) {
          var k :| 0 <= k < |rest| && rest[k] == DOTDOT &&
            var x := Node(t, next, rest[..k]); x.Some? && t.lookup(x.value, DOTDOT).None?;
          assert parts[k + 1] == DOTDOT && parts[..k + 1][1..] == rest[..k];
        }
      } else if parts[0] == DOTDOT {
        assert Node(t, cur, parts[..0]) == Some(cur);
      }
    }
  }

  /** The inodes that the lookups along `parts` pass through, from `start` on; all but the last
      are not to be removed. */
  ghost predicate Chain(t: Tree, start: nat, parts: seq<seq<Byte>>, nodes: seq<nat>) {
    && |nodes| == |parts| + 1 && nodes[0] == start
    && (forall k :: 0 <= k < |parts| ==>
          |parts[k]| <= NAME_MAX && !t.removed(nodes[k]) && t.lookup(nodes[k], parts[k]) == Some(nodes[k + 1]))
  }

  ghost predicate LeadsTo(t: Tree, start: nat, parts: seq<seq<Byte>>, x: nat) {
    exists nodes :: Chain(t, start, parts, nodes) && nodes[|parts|] == x
  }

  lemma {:induction false} NodeIsChain(t: Tree, cur: nat, parts: seq<seq<Byte>>, x: nat)
    ensures Node(t, cur, parts) == Some(x) <==> LeadsTo(t, cur, parts, x)
    decreases |parts|
  {
    forall nodes | Chain(t, cur, parts, nodes) && parts != []
      ensures |parts[0]| <= NAME_MAX && !t.removed(cur) && t.lookup(cur, parts[0]) == Some(nodes[1])
    {
    }
    if parts == [] {
      assert Chain(t, cur, parts, [cur]);
    } else if |parts[0]| <= NAME_MAX && !t.removed(cur) && t.lookup(cur, parts[0]).Some? {
      var next, rest := t.lookup(cur, parts[0]).value, parts[1..];
      NodeIsChain(t, next, rest, x);
      if LeadsTo(t, next, rest, x) {
        var nodes :| Chain(t, next, rest, nodes) && nodes[|rest|] == x;
        assert Chain(t, cur, parts, [cur] + nodes);
      }
      if LeadsTo(t, cur, parts, x) {
        var nodes :| Chain(t, cur, parts, nodes) && nodes[|parts|] == x;
        assert Chain(t, next, rest, nodes[1..]);
      }
    }
  }

  lemma {:induction false} WalkIsNode(t: Tree, cur: nat, parts: seq<seq<Byte>>, x: nat)
    ensures Walk(t, cur, parts) == Some(x) <==> Node(t, cur, parts) == Some(x) && !t.removed(x)
    decreases |parts|
  {
    if parts != [] && t.lookup(cur, parts[0]).Some? {
      WalkIsNode(t, t.lookup(cur, parts[0]).value, parts[1..], x);
    }
  }

  /** Where paths lead.  An absolute path starts at the root and any other at the working
      directory; from there each part is looked up in what the part before it led to, and
      neither the inodes passed nor the last one are to be removed.  Only the path "/" leads
      to the root whatever becomes of it. */
  lemma ResolveExactly(t: Tree, path: seq<Byte>, x: nat)
    ensures Resolve(t, path) == Some(x) <==>
      if path == [SEPARATOR] then x == t.root
      else !t.removed(x) && LeadsTo(t, if [SEPARATOR] <= path then t.root else t.cwd, Parts(path), x)
  {
    var start := if [SEPARATOR] <= path then t.root else t.cwd;
    assert start == Origin(t, path);
    WalkIsNode(t, start, Parts(path), x);
    NodeIsChain(t, start, Parts(path), x);
  }

  /** The part after these is looked up where there is no entry "..". */
  ghost predicate NoWayUp(t: Tree, start: nat, parts: seq<seq<Byte>>) {
    exists x: nat :: LeadsTo(t, start, parts, x) && t.lookup(x, DOTDOT).None?
  }

  /** And which paths fail the ASSERT of dir_lookup: those with a part ".." that is looked up
      where there is no such entry. */
  lemma PathPanicsExactly(t: Tree, path: seq<Byte>)
    ensures Panics(t, path) <==>
      && path != [SEPARATOR]
      && exists k :: 0 <= k < |Parts(path)| && Parts(path)[k] == DOTDOT
                     && NoWayUp(t, if [SEPARATOR] <= path then t.root else t.cwd, Parts(path)[..k])
  {
    var start, parts := if [SEPARATOR] <= path then t.root else t.cwd, Parts(path);
    assert start == Origin(t, path);
    PanicsExactly(t, start, parts);
    forall k | 0 <= k < |parts|
      ensures NoWayUp(t, start, parts[..k]) <==>
        var x := Node(t, start, parts[..k]); x.Some? && t.lookup(x.value, DOTDOT).None?
    {
      forall x: nat ensures LeadsTo(t, start, parts[..k], x) <==> Node(t, start, parts[..k]) == Some(x) {
        NodeIsChain(t, start, parts[..k], x);
      }
    }
  }

  /** So a name alone is looked up in the working directory, and behind a separator in the root. */
  lemma NameAlone(t: Tree, w: seq<Byte>)
    requires IsPart(w)
    ensures Resolve(t, w) == InDirectory(t, t.cwd, w)
    ensures Resolve(t, [SEPARATOR] + w) == InDirectory(t, t.root, w)
  {
    assert w + [] == w && EndsIn(w + [], [], w, []);
    LastWord(w, []);
    assert ([SEPARATOR] + w)[1..] == w;
  }

  /** A path that does not begin with a separator means the same whatever the root is, and one
      that does whatever the working directory is. */
  lemma OtherOriginIgnored(t: Tree, path: seq<Byte>, other: nat)
    ensures var u := if [SEPARATOR] <= path then t.(cwd := other) else t.(root := other);
      Resolve(u, path) == Resolve(t, path) && (Panics(u, path) <==> Panics(t, path))
  {
    var u := if [SEPARATOR] <= path then t.(cwd := other) else t.(root := other);
    var start := Origin(t, path);
    SameLookups(t, u, start, Parts(path));
  }

  lemma {:induction false} SameLookups(t: Tree, u: Tree, cur: nat, parts: seq<seq<Byte>>)
    requires u.lookup == t.lookup && u.removed == t.removed
    ensures Walk(u, cur, parts) == Walk(t, cur, parts) && (WalkPanics(u, cur, parts) <==> WalkPanics(t, cur, parts))
    decreases |parts|
  {
    if parts != [] && t.lookup(cur, parts[0]).Some? {
      SameLookups(t, u, t.lookup(cur, parts[0]).value, parts[1..]);
    }
  }

  /** A word that a path can have as a part. */
  predicate IsPart(w: seq<Byte>) {
    w != [] && forall i :: 0 <= i < |w| ==> w[i] != SEPARATOR
  }

  ghost predicate AreParts(parts: seq<seq<Byte>>) {
    forall i :: 0 <= i < |parts| ==> IsPart(parts[i])
  }

  /** Some path from the root or from the working directory comes to `x`. */
  ghost predicate Reached(t: Tree, x: nat) {
    exists origin, parts :: (origin == t.root || origin == t.cwd) && AreParts(parts) && Node(t, origin, parts) == Some(x)
  }

  /** A path with these parts. */
  function Joined(parts: seq<seq<Byte>>): seq<Byte> {
    if parts == [] then [] else parts[0] + ([SEPARATOR] + Joined(parts[1..]))
  }

  lemma {:induction false} WordAhead(w: seq<Byte>, rest: seq<Byte>)
    requires IsPart(w)
    ensures Parts(w + ([SEPARATOR] + rest)) == [w] + Parts(rest)
    decreases |w|
  {
    var s := w + ([SEPARATOR] + rest);
    if |w| == 1 {
      TokensNewWord(SEPARATOR, s);
      assert s[1..] == [SEPARATOR] + rest && s[1..][1..] == rest;
      assert [s[0]] == w;
    } else {
      assert s[1..] == w[1..] + ([SEPARATOR] + rest);
      WordAhead(w[1..], rest);
      TokensSameWord(SEPARATOR, s);
      assert [s[0]] + w[1..] == w;
      assert ([w[1..]] + Parts(rest))[1..] == Parts(rest);
    }
  }

  lemma {:induction false} JoinedParts(parts: seq<seq<Byte>>)
    requires AreParts(parts)
    ensures Parts(Joined(parts)) == parts
  {
    if parts == [] {
      NoParts();
    } else {
      JoinedParts(parts[1..]);
      WordAhead(parts[0], Joined(parts[1..]));
    }
  }

  /** Parts are parts. */
  lemma {:induction false} PartsAre(path: seq<Byte>)
    ensures AreParts(Parts(path))
    decreases |path|
  {
    var r := Skip(SEPARATOR, path);
    if r != [] {
      PartsAre(r[WordLen(SEPARATOR, r)..]);
    }
  }

  /** A path that leads from the given origin along the given parts. */
  lemma PathAlong(t: Tree, origin: nat, parts: seq<seq<Byte>>) returns (path: seq<Byte>)
    requires (origin == t.root || origin == t.cwd) && AreParts(parts) && parts != []
    ensures path != [SEPARATOR] && Origin(t, path) == origin && Parts(path) == parts
  {
    JoinedParts(parts);
    var p := Joined(parts);
    assert p[0] == parts[0][0] && p[0] != SEPARATOR;
    if origin == t.cwd {
      path := p;
    } else {
      path := [SEPARATOR] + p;
      assert path[1..] == p && Skip(SEPARATOR, path) == Skip(SEPARATOR, p);
    }
  }

  ghost predicate NeverPanics(t: Tree) {
    forall path :: !Panics(t, path)
  }

  ghost predicate ReachedHaveDotDot(t: Tree) {
    forall x: nat :: Reached(t, x) ==> t.lookup(x, DOTDOT).Some?
  }

  lemma PathPanics(t: Tree, origin: nat, parts: seq<seq<Byte>>, x: nat)
    requires NeverPanics(t) && (origin == t.root || origin == t.cwd) && AreParts(parts) && Node(t, origin, parts) == Some(x)
    ensures t.lookup(x, DOTDOT).Some?
  {
    var all := parts + [DOTDOT];
    assert AreParts(all);
    var path := PathAlong(t, origin, all);
    assert !Panics(t, path);
    PanicsExactly(t, origin, all);
    assert all[|parts|] == DOTDOT && all[..|parts|] == parts;
  }

  /** So no path fails it if and only if every inode that a path comes to has such an entry,
      files included. */
  lemma NoPathPanics(t: Tree)
    ensures NeverPanics(t) <==> ReachedHaveDotDot(t)
  {
    if NeverPanics(t) {
      forall x: nat | Reached(t, x) ensures t.lookup(x, DOTDOT).Some? {
        var origin, parts :| (origin == t.root || origin == t.cwd) && AreParts(parts) && Node(t, origin, parts) == Some(x);
        PathPanics(t, origin, parts, x);
      }
    }
    if ReachedHaveDotDot(t) {
      forall path ensures !Panics(t, path) {
        NotPanics(t, path);
      }
    }
  }

  lemma NotPanics(t: Tree, path: seq<Byte>)
    requires ReachedHaveDotDot(t)
    ensures !Panics(t, path)
  {
    var origin, parts := Origin(t, path), Parts(path);
    PartsAre(path);
    PanicsExactly(t, origin, parts);
    forall k | 0 <= k < |parts| && Node(t, origin, parts[..k]).Some?
      ensures t.lookup(Node(t, origin, parts[..k]).value, DOTDOT).Some?
    {
      assert AreParts(parts[..k]);
      assert Reached(t, Node(t, origin, parts[..k]).value);
    }
  }

  /** The walk that ends at the first part that is not a directory. */
  function StrictWalk(t: Tree, cur: nat, parts: seq<seq<Byte>>): Option<nat>
    decreases |parts|
  {
    if parts == [] then if t.removed(cur) then None else Some(cur)
    else if !t.isDir(cur) || |parts[0]| > NAME_MAX || t.removed(cur) then None
    else
      match t.lookup(cur, parts[0])
      case None => None
      case Some(next) => StrictWalk(t, next, parts[1..])
  }

  /** The bytes of no file lead anywhere. */
  ghost predicate FilesLeadNowhere(t: Tree) {
    forall f: nat, name: seq<Byte> :: !t.isDir(f) ==> InDirectory(t, f, name) == None
  }

  lemma {:induction false} StrictSame(t: Tree, cur: nat, parts: seq<seq<Byte>>)
    requires FilesLeadNowhere(t)
    ensures Walk(t, cur, parts) == StrictWalk(t, cur, parts)
    decreases |parts|
  {
    if parts != [] && |parts[0]| <= NAME_MAX && !t.removed(cur) && t.lookup(cur, parts[0]).Some? {
      var next := t.lookup(cur, parts[0]).value;
      if t.isDir(cur) {
        StrictSame(t, next, parts[1..]);
      } else {
        var one := [parts[0]];
        assert InDirectory(t, cur, parts[0]) == Walk(t, next, one[1..]);
      }
    }
  }

  ghost predicate FilesEndWalks(t: Tree) {
    forall cur: nat, parts: seq<seq<Byte>> :: Walk(t, cur, parts) == StrictWalk(t, cur, parts)
  }

  /** A file in the middle ends every walk if and only if no file that stays has bytes in which
      some name is found and leads to an inode that stays. */
  lemma FilesEndWalksExactly(t: Tree)
    ensures FilesEndWalks(t) <==> FilesLeadNowhere(t)
  {
    if FilesLeadNowhere(t) {
      forall cur: nat, parts: seq<seq<Byte>> ensures Walk(t, cur, parts) == StrictWalk(t, cur, parts) {
        StrictSame(t, cur, parts);
      }
    }
    if FilesEndWalks(t) {
      forall f: nat, name: seq<Byte> | !t.isDir(f) ensures InDirectory(t, f, name) == None {
        assert Walk(t, f, [name]) == StrictWalk(t, f, [name]);
      }
    }
  }

  // ---------- lookup ----------

  const ENTRY_SIZE: nat := 20     // sector, name and null byte, in_use
  const NAME_OFS: nat := 4
  const IN_USE_OFS: nat := 19

  /** Entry `k` of these bytes is in use and has that name. */
  predicate Entry(c: seq<Byte>, k: nat, name: seq<Byte>)
    requires ENTRY_SIZE * (k + 1) <= |c|
  {
    var e := c[ENTRY_SIZE * k..ENTRY_SIZE * (k + 1)];
    e[IN_USE_OFS] != 0 && |name| <= NAME_MAX && e[NAME_OFS..NAME_OFS + |name|] == name && e[NAME_OFS + |name|] == 0
  }

  /** The sector in the first entry from `k` on with that name. */
  function LookupFrom(c: seq<Byte>, k: nat, name: seq<Byte>): Option<nat>
    decreases |c| - ENTRY_SIZE * k
  {
    if ENTRY_SIZE * (k + 1) > |c| then None
    else if Entry(c, k, name) then Some(Decode(c[ENTRY_SIZE * k..ENTRY_SIZE * k + 4]))
    else LookupFrom(c, k + 1, name)
  }

  /** The 20 bytes of entry `j` have a null-terminated name from byte 4 on, and byte 19 says
      that the entry is in use. */
  ghost predicate Named(c: seq<Byte>, j: nat, name: seq<Byte>) {
    && 20 * j + 20 <= |c| && c[20 * j + 19] != 0
    && |name| <= 14 && c[20 * j + 4..20 * j + 4 + |name|] == name && c[20 * j + 4 + |name|] == 0
  }

  lemma NamedIsEntry(c: seq<Byte>, j: nat, name: seq<Byte>)
    requires ENTRY_SIZE * (j + 1) <= |c|
    ensures Entry(c, j, name) <==> Named(c, j, name)
  {
    var e := c[ENTRY_SIZE * j..ENTRY_SIZE * (j + 1)];
    if |name| <= NAME_MAX {
      var here, there := e[NAME_OFS..NAME_OFS + |name|], c[20 * j + 4..20 * j + 4 + |name|];
      assert forall i :: 0 <= i < |name| ==> here[i] == there[i];
      assert here == there;
    }
  }

  /** Entry `j` is the first from `k` on with that name. */
  ghost predicate First(c: seq<Byte>, k: nat, name: seq<Byte>, j: nat) {
    k <= j && Named(c, j, name) && forall i :: k <= i < j ==> !Named(c, i, name)
  }

  lemma NoneBeyond(c: seq<Byte>, k: nat, name: seq<Byte>)
    requires ENTRY_SIZE * (k + 1) > |c|
    ensures forall j: nat :: k <= j ==> !Named(c, j, name)
  {
  }

  lemma FirstFrom(c: seq<Byte>, k: nat, name: seq<Byte>)
    ensures Named(c, k, name) ==> forall j: nat :: First(c, k, name, j) <==> j == k
    ensures !Named(c, k, name) ==> forall j: nat :: First(c, k, name, j) <==> First(c, k + 1, name, j)
  {
    hide Named;
    if !Named(c, k, name) {
      forall j: nat ensures First(c, k, name, j) <==> First(c, k + 1, name, j) {
      }
    }
  }

  lemma {:induction false} LookupLowest(c: seq<Byte>, k: nat, name: seq<Byte>)
    ensures LookupFrom(c, k, name).None? <==> (forall j: nat :: k <= j ==> !Named(c, j, name))
    ensures forall j: nat :: First(c, k, name, j) ==> 20 * j + 4 <= |c| && LookupFrom(c, k, name) == Some(Decode(c[20 * j..20 * j + 4]))
    ensures LookupFrom(c, k, name).Some? ==> exists j: nat :: First(c, k, name, j)
    decreases |c| - ENTRY_SIZE * k
  {
    if ENTRY_SIZE * (k + 1) > |c| {
      NoneBeyond(c, k, name);
    } else {
      hide Entry, Named, First, Decode;
      NamedIsEntry(c, k, name);
      FirstFrom(c, k, name);
      if !Entry(c, k, name) {
        LookupLowest(c, k + 1, name);
        if LookupFrom(c, k + 1, name).Some? {
          var j: nat :| First(c, k + 1, name, j);
          assert First(c, k, name, j);
        }
      } else {
        assert First(c, k, name, k);
      }
    }
  }

  /** lookup_unsynched over the bytes of an inode. */
  method Lookup(c: seq<Byte>, name: seq<Byte>) returns (r: Option<nat>)
    ensures r == LookupFrom(c, 0, name)
  {
    var k := 0;
    while ENTRY_SIZE * (k + 1) <= |c|
      invariant 0 <= k && LookupFrom(c, k, name) == LookupFrom(c, 0, name)
      decreases |c| - ENTRY_SIZE * k
    {
      if Entry(c, k, name) {
        return Some(Decode(c[ENTRY_SIZE * k..ENTRY_SIZE * k + 4]));
      }
      k := k + 1;
    }
    return None;
  }

  /** The tree given by the bytes of all inodes. */
  function DiskTree(root: nat, cwd: nat, contents: nat -> seq<Byte>, isDir: nat -> bool, removed: nat -> bool): Tree {
    Tree(root, cwd, (d, name) => LookupFrom(contents(d), 0, name), isDir, removed)
  }

  // ---------- Paths through a file ----------

  function EntryBytes(sector: Byte, letter: Byte): (e: seq<Byte>)
    ensures |e| == ENTRY_SIZE
  {
    [sector, 0, 0, 0, letter] + seq(14, _ => 0) + [1]
  }

  /** A root directory (1) with a file f (2), whose own bytes read as an entry x for inode 3. */
  function Sample(): Tree {
    DiskTree(1, 1, d => if d == 1 then EntryBytes(2, 102) else if d == 2 then EntryBytes(3, 120) else [], d => d == 1, _ => false)
  }

  lemma EntryMatches(e: seq<Byte>, name: seq<Byte>)
    requires |e| == ENTRY_SIZE && e[IN_USE_OFS] != 0 && e[4] != 0 && e[5] == 0
    requires forall i :: 0 <= i < |name| ==> name[i] != 0
    ensures Entry(e, 0, name) <==> name == [e[4]]
  {
    assert e[0..ENTRY_SIZE] == e;
    if 1 < |name| <= NAME_MAX {
      assert e[NAME_OFS..NAME_OFS + |name|][1] == e[5] != name[1];
    } else if |name| == 1 {
      assert e[NAME_OFS..NAME_OFS + 1] == [e[4]];
    }
  }

  lemma EntryFound(sector: Byte, letter: Byte, name: seq<Byte>)
    requires letter != 0 && forall i :: 0 <= i < |name| ==> name[i] != 0
    ensures LookupFrom(EntryBytes(sector, letter), 0, name) == if name == [letter] then Some(sector) else None
  {
    var e := EntryBytes(sector, letter);
    EntryMatches(e, name);
    hide Entry;
    assert LookupFrom(e, 1, name) == None;
    assert e[0..4] == [sector, 0, 0, 0];
  }

  /** The path f/x goes through the file f; its front f/ is no directory, so
      get_subdir_from_path fails its ASSERT on it; and f/.. fails that of dir_lookup. */
  lemma PathsThroughFile()
    ensures var t := Sample();
      && !t.isDir(2) && Resolve(t, [102, SEPARATOR, 120]) == Some(3)
      && SubdirPanics(t, [102, SEPARATOR, 120])
      && Panics(t, [102, SEPARATOR, 46, 46])
  {
    var t := Sample();
    EntryFound(2, 102, [102]);
    EntryFound(3, 120, [120]);
    EntryFound(3, 120, DOTDOT);
    SamplePaths();
    assert Walk(t, 3, []) == Some(3) && Walk(t, 2, []) == Some(2);
    assert Walk(t, 2, [[120]]) == Walk(t, 3, [[120]][1..]);
    assert Walk(t, 1, [[102], [120]]) == Walk(t, 2, [[102], [120]][1..]);
    assert Walk(t, 1, [[102]]) == Walk(t, 2, [[102]][1..]);
    assert WalkPanics(t, 2, [DOTDOT]) && [[102], DOTDOT][1..] == [DOTDOT];
  }

  lemma SamplePaths()
    ensures Parts([102, SEPARATOR, 120]) == [[102], [120]] && Front([102, SEPARATOR, 120]) == [102, SEPARATOR]
    ensures Parts([102, SEPARATOR]) == [[102]] && Parts([102, SEPARATOR, 46, 46]) == [[102], DOTDOT]
  {
    var a, x: seq<Byte>, d := [102, SEPARATOR], [120], DOTDOT;
    NoParts();
    assert EndsIn([102, SEPARATOR, 120], a, x, []) && EndsIn([102, SEPARATOR, 46, 46], a, d, []);
    assert a + x + [] == [102, SEPARATOR, 120] && a + d + [] == [102, SEPARATOR, 46, 46];
    LastWord([102], [SEPARATOR]);
    assert [102] + [SEPARATOR] == a;
    FrontAndLast(a, x, []);
    FrontAndLast(a, d, []);
    var path: seq<Byte> := [102, SEPARATOR, 120];
    assert path[..2] == a && DropWord(a) == a;
    assert Front(path) == DropWord(path) == DropWord(path[..2]);
  }

  // ---------- get_next_part ----------

  /** The next part, or that there is none, or that it is too long. */
  datatype Next = End | Part(name: seq<Byte>, rest: seq<Byte>) | TooLong

  method GetNextPart(src: seq<Byte>) returns (r: Next)
    ensures r.End? <==> Parts(src) == []
    ensures r.TooLong? <==> Parts(src) != [] && |Parts(src)[0]| > NAME_MAX
    ensures r.Part? ==> r.name == Parts(src)[0] && Parts(r.rest) == Parts(src)[1..] && |r.rest| < |src|
  {
    var i := 0;
    assert src[0..] == src;
    while i < |src| && src[i] == SEPARATOR
      invariant 0 <= i <= |src| && Skip(SEPARATOR, src[i..]) == Skip(SEPARATOR, src)
    {
      assert src[i..][1..] == src[i + 1..];
      i := i + 1;
    }
    if i == |src| {
      return End;
    }
    ghost var word := src[i..];
    assert Skip(SEPARATOR, word) == word;
    ghost var n := WordLen(SEPARATOR, word);
    var start, dst := i, [];
    while i < |src| && src[i] != SEPARATOR
      invariant start <= i <= start + n && dst == word[..i - start] && |dst| <= NAME_MAX
    {
      if |dst| < NAME_MAX {
        dst := dst + [src[i]];
      } else {
        return TooLong;
      }
      i := i + 1;
    }
    assert i - start == n;
    assert src[i..] == word[n..];
    return Part(dst, src[i..]);
  }

  /** get_last_part: the name a path ends in, unless some part is too long.  Without parts the
      caller's buffer stays as it is. */
  method GetLastPart(path: seq<Byte>, buffer: seq<Byte>) returns (r: Option<seq<Byte>>)
    ensures r.None? <==> exists i :: 0 <= i < |Parts(path)| && |Parts(path)[i]| > NAME_MAX
    ensures r.Some? ==> r.value == if Parts(path) == [] then buffer else Parts(path)[|Parts(path)| - 1]
  {
    hide Parts;
    var src, part := path, buffer;
    ghost var k := 0;
    ghost var ps := Parts(path);
    while true
      invariant 0 <= k <= |ps| && Parts(src) == ps[k..] && part == (if k == 0 then buffer else ps[k - 1])
      invariant forall i :: 0 <= i < k ==> |ps[i]| <= NAME_MAX
      decreases |src|
    {
      var next := GetNextPart(src);
      match next
      case TooLong =>
        assert |ps[k]| > NAME_MAX;
        return None;
      case End =>
        return Some(part);
      case Part(name, rest) =>
        part, src := name, rest;
        k := k + 1;
    }
  }

  // ---------- get_inode_from_path ----------

  method GetInode(t: Tree, path: seq<Byte>) returns (panic: bool, r: Option<nat>)
    ensures panic <==> Panics(t, path)
    ensures !panic ==> r == Resolve(t, path)
  {
    hide Parts;
    if path == [] {
      NoParts();
      return false, if t.removed(t.cwd) then None else Some(t.cwd);
    }
    if path == [SEPARATOR] {
      return false, Some(t.root);
    }
    var cur: nat := if path[0] == SEPARATOR then t.root else t.cwd;
    var src := path;
    while true
      invariant Walk(t, cur, Parts(src)) == Resolve(t, path) && (WalkPanics(t, cur, Parts(src)) <==> Panics(t, path))
      decreases |src|
    {
      var next := GetNextPart(src);
      match next
      case TooLong =>
        return false, None;
      case End =>
        return false, if t.removed(cur) then None else Some(cur);
      case Part(name, rest) =>
        var found := t.lookup(cur, name);
        if found.None? && name == DOTDOT {
          return true, None;
        }
        if found.None? || t.removed(cur) {
          return false, None;
        }
        cur, src := found.value, rest;
    }
  }

  lemma NoParts()
    ensures Parts([]) == []
  {
  }

  // ---------- get_subdir_from_path ----------

  /** A path whose last part is `w`, with only separators behind it. */
  ghost predicate EndsIn(path: seq<Byte>, a: seq<Byte>, w: seq<Byte>, z: seq<Byte>) {
    && path == a + w + z && w != [] && (a != [] ==> a[|a| - 1] == SEPARATOR)
    && (forall i :: 0 <= i < |w| ==> w[i] != SEPARATOR) && (forall i :: 0 <= i < |z| ==> z[i] == SEPARATOR)
  }

  lemma {:induction false} OnlySeparators(z: seq<Byte>)
    requires forall i :: 0 <= i < |z| ==> z[i] == SEPARATOR
    ensures Parts(z) == []
  {
    if z != [] {
      OnlySeparators(z[1..]);
    }
  }

  lemma {:induction false} LastWord(w: seq<Byte>, z: seq<Byte>)
    requires EndsIn(w + z, [], w, z)
    ensures Parts(w + z) == [w]
  {
    var s := w + z;
    assert s[1..] == w[1..] + z;
    if |w| == 1 {
      OnlySeparators(z);
      assert w[1..] + z == z;
      TokensNewWord(SEPARATOR, s);
      assert [s[0]] == w;
    } else {
      assert w[1..] + z == [] + w[1..] + z;
      LastWord(w[1..], z);
      TokensSameWord(SEPARATOR, s);
      assert [s[0]] + w[1..] == w;
    }
  }

  /** The parts before the last are the parts of the path's front. */
  lemma {:induction false} FrontAndLast(a: seq<Byte>, w: seq<Byte>, z: seq<Byte>)
    requires EndsIn(a + w + z, a, w, z)
    ensures Parts(a + w + z) == Parts(a) + [w]
    decreases |a|
  {
    var s := a + w + z;
    if a == [] {
      assert s == w + z && w + z == [] + w + z;
      LastWord(w, z);
      NoParts();
    } else {
      var b := a[1..];
      assert s[1..] == b + w + z;
      if b == [] {
        assert b + w + z == [] + w + z;
        assert a == [SEPARATOR];
      }
      FrontAndLast(b, w, z);
      if a[0] == SEPARATOR {
      } else if a[1] == SEPARATOR {
        TokensNewWord(SEPARATOR, s);
        TokensNewWord(SEPARATOR, a);
      } else {
        TokensSameWord(SEPARATOR, s);
        TokensSameWord(SEPARATOR, a);
      }
    }
  }

  /** `path` without the word it ends in. */
  function DropWord(path: seq<Byte>): seq<Byte> {
    if path == [] || path[|path| - 1] == SEPARATOR then path else DropWord(path[..|path| - 1])
  }

  /** `path` without its last part and the separators behind it. */
  function Front(path: seq<Byte>): seq<Byte> {
    if path == [] then [] else if path[|path| - 1] == SEPARATOR then Front(path[..|path| - 1]) else DropWord(path)
  }

  lemma {:induction false} DroppedWord(path: seq<Byte>)
    ensures var n := |DropWord(path)|;
      && n <= |path| && DropWord(path) == path[..n] && (n > 0 ==> path[n - 1] == SEPARATOR)
      && (forall i :: n <= i < |path| ==> path[i] != SEPARATOR)
  {
    if path != [] && path[|path| - 1] != SEPARATOR { DroppedWord(path[..|path| - 1]); }
  }

  /** The front of a path that has parts ends where its last part begins. */
  lemma {:induction false} FrontSplits(path: seq<Byte>) returns (w: seq<Byte>, z: seq<Byte>)
    requires Parts(path) != []
    ensures EndsIn(path, Front(path), w, z)
  {
    if path == [] {
      NoParts();
    } else if path[|path| - 1] == SEPARATOR {
      var p := path[..|path| - 1];
      StillParts(path);
      hide Parts;
      var z0;
      w, z0 := FrontSplits(p);
      z := z0 + [SEPARATOR];
      assert path == Front(path) + w + z;
    } else {
      DroppedWord(path);
      var n := |DropWord(path)|;
      w, z := path[n..], [];
      assert path == path[..n] + w + z;
    }
  }

  /** Without parts there is no front: what get_subdir_from_path looks for then is the working
      directory, also for "/". */
  lemma {:induction false} FrontOfNone(path: seq<Byte>)
    requires Parts(path) == []
    ensures Front(path) == []
  {
    if path != [] {
      NoWords(path);
      var p := path[..|path| - 1];
      OnlySeparators(p);
      FrontOfNone(p);
    }
  }

  /** A separator at the end makes no difference. */
  lemma StillParts(path: seq<Byte>)
    requires Parts(path) != [] && path != [] && path[|path| - 1] == SEPARATOR
    ensures Parts(path[..|path| - 1]) != []
  {
    var p := path[..|path| - 1];
    if Parts(p) == [] {
      NoWords(p);
      assert path == p + [SEPARATOR];
      OnlySeparators(path);
    }
  }

  /** A path without parts is made of separators. */
  lemma {:induction false} NoWords(path: seq<Byte>)
    requires Parts(path) == []
    ensures forall i :: 0 <= i < |path| ==> path[i] == SEPARATOR
  {
    if path != [] && path[0] == SEPARATOR { NoWords(path[1..]); }
  }

  /** The part of get_subdir_from_path that shortens the copied path.  Both loops look at the
      last character before they test the length, so they read the byte before the copy exactly
      when nothing stands before the last part. */
  method FrontOf(path: seq<Byte>) returns (copy: seq<Byte>, below: bool)
    requires |path| <= PATH_MAX
    ensures copy == Front(path)
    ensures below <==> Front(path) == []
  {
    var n := |path|;
    below := false;
    assert path[..n] == path;
    while n != 0 && path[n - 1] == SEPARATOR
      invariant 0 <= n <= |path| && Front(path[..n]) == Front(path)
    {
      assert path[..n][..n - 1] == path[..n - 1];
      n := n - 1;
    }
    if n == 0 { below := true; }
    assert n > 0 ==> Front(path[..n]) == DropWord(path[..n]);
    while n != 0 && path[n - 1] != SEPARATOR
      invariant 0 <= n <= |path| && DropWord(path[..n]) == Front(path) && (below ==> n == 0)
    {
      assert path[..n][..n - 1] == path[..n - 1];
      n := n - 1;
    }
    if n == 0 { below := true; }
    copy := path[..n];
  }

  /** Resolving a path is resolving its front and looking its last part up there. */
  lemma ResolveSplit(t: Tree, path: seq<Byte>, a: seq<Byte>, w: seq<Byte>, z: seq<Byte>)
    requires EndsIn(path, a, w, z)
    ensures Resolve(t, path) == match Resolve(t, a) case None => None case Some(dir) => InDirectory(t, dir, w)
  {
    FrontAndLast(a, w, z);
    WalkSplit(t, Origin(t, path), Parts(a), w);
    if a == [] {
      assert path[0] == w[0];
    } else {
      assert path[0] == a[0];
    }
    if a == [SEPARATOR] {
      OnlySeparators(a);
    }
    assert path[|a|] == w[0];
  }

  /** Whether looking for the directory of a path fails an ASSERT: on the way, or because its
      front leads to something that is not a directory. */
  predicate SubdirPanics(t: Tree, path: seq<Byte>) {
    Panics(t, Front(path)) || (Resolve(t, Front(path)).Some? && !t.isDir(Resolve(t, Front(path)).value))
  }

  /** get_subdir_from_path: the directory that the front of a path leads to. */
  method GetSubdir(t: Tree, path: seq<Byte>) returns (panic: bool, dir: Option<nat>)
    requires |path| <= PATH_MAX
    ensures panic <==> SubdirPanics(t, path)
    ensures !panic ==> dir == Resolve(t, Front(path))
  {
    var copy, _ := FrontOf(path);
    panic, dir := GetInode(t, copy);
    if !panic {
      panic := dir.Some? && !t.isDir(dir.value);
    }
  }

  /** get_subdir_from_path and get_last_part together lead where the path leads: to nothing
      when the directory or the name fails, else to what the name is in the directory. */
  method ParentAndName(t: Tree, path: seq<Byte>, buffer: seq<Byte>) returns (panic: bool, dir: Option<nat>, name: Option<seq<Byte>>)
    requires |path| <= PATH_MAX
    ensures panic <==> SubdirPanics(t, path)
    ensures !panic && Parts(path) != [] && dir.Some? && name.Some? ==> Resolve(t, path) == InDirectory(t, dir.value, name.value)
    ensures !panic && Parts(path) != [] && (dir.None? || name.None?) ==> Resolve(t, path) == None
  {
    panic, dir := GetSubdir(t, path);
    name := GetLastPart(path, buffer);
    if !panic && Parts(path) != [] {
      ghost var w, z := FrontSplits(path);
      ResolveSplit(t, path, Front(path), w, z);
      FrontAndLast(Front(path), w, z);
      if name.None? {
        ghost var i :| 0 <= i < |Parts(path)| && |Parts(path)[i]| > NAME_MAX;
        TooLongFails(t, Origin(t, path), Parts(path), i);
      }
    }
  }

  lemma {:induction false} TooLongFails(t: Tree, cur: nat, parts: seq<seq<Byte>>, i: nat)
    requires i < |parts| && |parts[i]| > NAME_MAX
    ensures Walk(t, cur, parts) == None
    decreases |parts|
  {
    if i > 0 && !t.removed(cur) && t.lookup(cur, parts[0]).Some? {
      TooLongFails(t, t.lookup(cur, parts[0]).value, parts[1..], i - 1);
    }
  }
}
