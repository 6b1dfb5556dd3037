/** The hash that spreads directory entries over buckets. */
module NameHash {
  import opened JsValues

  const BUCKETS: nat := 4096

  /** JavaScript's `x | 0`. */
  function ToInt32(x: int): int {
    var u := x % UINT32;
    if u < 0x8000_0000 then u else u - UINT32
  }

  /** The polynomial the loop accumulates, without any wrap-around. */
  function Polynomial(name: JsString): nat {
    if name == [] then 0 else 31 * Polynomial(name[..|name| - 1]) + name[|name| - 1]
  }

  /** The bucket of entry `name` in the directory with this id. */
  function Bucket(id: nat, name: JsString): (b: nat)
    ensures b < BUCKETS
  {
    ((id + Polynomial(name)) % UINT32) % BUCKETS
  }

  lemma ToInt32IsCongruent(x: int)
    ensures exists q :: x - ToInt32(x) == UINT32 * q
  {
    var q := x / UINT32;
    assert x == UINT32 * q + x % UINT32;
    assert x - ToInt32(x) == UINT32 * q || x - ToInt32(x) == UINT32 * (q + 1);
  }

  lemma CongruentToInt32(x: int, y: int, q: int)
    requires x - y == UINT32 * q
    ensures ToInt32(x) == ToInt32(y) && x % UINT32 == y % UINT32
  {
  }

  /** Wrapping after the shift and after the step loses nothing of the polynomial modulo 2^32. */
  lemma StepIsCongruent(p: int, c: int, k: int)
    requires c == ToInt32(p)
    ensures ToInt32(ToInt32(c * 32) - c + k) == ToInt32(31 * p + k)
  {
    ToInt32IsCongruent(p);
    var q :| p - c == UINT32 * q;
    ToInt32IsCongruent(c * 32);
    var r :| c * 32 - ToInt32(c * 32) == UINT32 * r;
    CongruentToInt32(31 * p + k, ToInt32(c * 32) - c + k, 31 * q + r);
  }

  /** `hashName`: shifts, subtracts and truncates to 32 bits at every character. */
  method HashName(id: nat, name: JsString) returns (bucket: nat)
    ensures bucket == Bucket(id, name) == (id + Polynomial(name)) % 0x1_0000_0000 % 4096
  {
    var c := 0;
    var d := 0;
    while d < |name|
      invariant 0 <= d <= |name|
      invariant c == ToInt32(Polynomial(name[..d]))
    {
      StepIsCongruent(Polynomial(name[..d]), c, name[d]);
      assert name[..d + 1][..d] == name[..d];
      c := ToInt32(ToInt32(c * 32) - c + name[d]);
      d := d + 1;
    }
    assert name[..d] == name;
    ToInt32IsCongruent(Polynomial(name));
    var q :| Polynomial(name) - c == UINT32 * q;
    CongruentToInt32(id + Polynomial(name), id + c, q);
    bucket := ((id + c) % UINT32) % BUCKETS;
  }
}

/** Directory entries, and the chained hash table that finds them. */
module NodeTable {
  import opened Wrappers
  import opened JsValues
  import opened NameHash

  // The error numbers of the operations.
  const ENOENT := 44
  const EEXIST := 20
  const EISDIR := 31
  const ENOTDIR := 54
  const ENOTEMPTY := 55
  const EBUSY := 10
  const EINVAL := 28
  const EPERM := 63
  const EACCES := 2

  const ROOT_NAME: JsString := [SLASH]

  // Names that are more than names to the object that holds a directory's entries.
  const PROTO: JsString := [95, 95, 112, 114, 111, 116, 111, 95, 95]   // __proto__
  const READ: JsString := [114, 101, 97, 100]                          // read
  const WRITE: JsString := [119, 114, 105, 116, 101]                   // write
  const MODE: JsString := [109, 111, 100, 101]                         // mode

  /** Whether a node's mode grants anyone each permission. */
  datatype Permissions = Permissions(read: bool, write: bool, search: bool)

  const ALL: Permissions := Permissions(true, true, true)

  class FsNode {
    const id: nat
    const name: JsString
    const parent: FsNode
    const isDirectory: bool
    var permissions: Permissions
    // The next node in this node's bucket, and a directory's entries with their prototype.
    var next: FsNode?
    var children: map<JsString, FsNode?>
    var proto: FsNode?

    constructor (id: nat, parent: FsNode, name: JsString, isDirectory: bool, permissions: Permissions)
      ensures this.id == id && this.parent == parent && this.name == name && this.isDirectory == isDirectory
      ensures this.permissions == permissions && next == null && children == map[] && proto == null
    {
      this.id := id;
      this.parent := parent;
      this.name := name;
      this.isDirectory := isDirectory;
      this.permissions := permissions;
      next, children, proto := null, map[], null;
    }

    constructor Root(id: nat)
      ensures this.id == id && parent == this && name == ROOT_NAME && isDirectory
      ensures permissions == ALL && next == null && children == map[] && proto == null
    {
      this.id := id;
      parent := this;
      name := ROOT_NAME;
      isDirectory := true;
      permissions := ALL;
      next, children, proto := null, map[], null;
    }
  }

  /** Where each hashed node's `next` field leads. */
  type Links = map<FsNode, FsNode?>

  /** The node at position `i`, or null at the end. */
  ghost function At(chain: seq<FsNode>, i: nat): FsNode? {
    if i < |chain| then chain[i] else null
  }

  /** The nodes of `chain` are linked from `head`, in order and without a cycle. */
  ghost predicate Linked(links: Links, head: FsNode?, chain: seq<FsNode>) {
    && head == At(chain, 0)
    && (forall i :: 0 <= i < |chain| ==> chain[i] in links)
    && (forall i {:trigger links[chain[i]]} :: 0 <= i < |chain| ==> links[chain[i]] == At(chain, i + 1))
    && (forall i, j :: 0 <= i < j < |chain| ==> chain[i] != chain[j])
  }

  /** The bucket a node belongs to. */
  ghost function Home(n: FsNode): (b: nat)
    ensures b < BUCKETS
  {
    Bucket(n.parent.id, n.name)
  }

  /** Bucket `b` leads to `chain`, whose nodes belong there. */
  ghost predicate Holds(links: Links, head: FsNode?, chain: seq<FsNode>, b: nat) {
    Linked(links, head, chain) && forall m :: m in chain ==> Home(m) == b
  }

  /** Every hashed node is in the chain of its own bucket. */
  ghost predicate Homed(links: Links, chains: seq<seq<FsNode>>) {
    |chains| == BUCKETS && forall m {:trigger Home(m)} :: m in links ==> m in chains[Home(m)]
  }

  /** Every bucket leads to its chain. */
  ghost predicate AllHold(heads: seq<FsNode?>, links: Links, chains: seq<seq<FsNode>>) {
    && |heads| == BUCKETS == |chains|
    && forall b {:trigger Holds(links, heads[b], chains[b], b)} ::
         0 <= b < BUCKETS ==> Holds(links, heads[b], chains[b], b)
  }

  ghost predicate Chained(heads: seq<FsNode?>, links: Links, chains: seq<seq<FsNode>>) {
    Homed(links, chains) && AllHold(heads, links, chains)
  }

  /** Putting `n` at the head of its bucket. */
  lemma AddingKeepsChains(heads: seq<FsNode?>, links: Links, chains: seq<seq<FsNode>>, n: FsNode)
    requires Chained(heads, links, chains) && n !in links
    ensures
      var b := Home(n);
      Chained(heads[b := n], links[n := heads[b]], chains[b := [n] + chains[b]])
  {
    var b := Home(n);
    var links', chains' := links[n := heads[b]], chains[b := [n] + chains[b]];
    forall c | 0 <= c < BUCKETS
      ensures Holds(links', heads[b := n][c], chains'[c], c)
    {
      assert Holds(links, heads[c], chains[c], c);
      if c == b {
        AddingLinks(links, heads[b], chains[b], n);
      } else {
        StaysLinked(links, links', heads[c], chains[c]);
      }
    }
    forall m | m in links'
      ensures m in chains'[Home(m)]
    {
      if m != n { assert m in chains[Home(m)]; }
    }
  }

  /** Links that are the same on a chain keep it. */
  lemma StaysLinked(links: Links, links': Links, head: FsNode?, chain: seq<FsNode>)
    requires Linked(links, head, chain)
    requires forall m :: m in chain && m in links ==> m in links' && links'[m] == links[m]
    ensures Linked(links', head, chain)
  {
    forall i | 0 <= i < |chain|
      ensures chain[i] in links' && links'[chain[i]] == At(chain, i + 1)
    {
      assert chain[i] in chain && links[chain[i]] == At(chain, i + 1);
    }
  }

  lemma AddingLinks(links: Links, head: FsNode?, chain: seq<FsNode>, n: FsNode)
    requires Linked(links, head, chain) && n !in links
    ensures Linked(links[n := head], n, [n] + chain)
  {
    var longer := [n] + chain;
    forall i | 0 <= i < |longer|
      ensures longer[i] in links[n := head] && links[n := head][longer[i]] == At(longer, i + 1)
    {
      if i > 0 { assert longer[i] == chain[i - 1] && links[chain[i - 1]] == At(chain, i); }
    }
  }

  ghost function Without(chain: seq<FsNode>, i: nat): seq<FsNode>
    requires i < |chain|
  {
    chain[..i] + chain[i + 1..]
  }

  /** The links once the node before position `i` bypasses it. */
  ghost function Bypassed(links: Links, chain: seq<FsNode>, i: nat): Links
    requires i < |chain| && chain[i] in links
  {
    (if i == 0 then links else links[chain[i - 1] := links[chain[i]]]) - {chain[i]}
  }

  /** Taking position `i` out of a chain without repetitions takes out that node and no other. */
  lemma WithoutMembers(chain: seq<FsNode>, i: nat)
    requires i < |chain| && forall j, k :: 0 <= j < k < |chain| ==> chain[j] != chain[k]
    ensures forall m :: m in Without(chain, i) <==> m in chain && m != chain[i]
  {
    forall m | m in chain && m != chain[i]
      ensures m in Without(chain, i)
    {
      var j :| 0 <= j < |chain| && chain[j] == m;
      assert Without(chain, i)[if j < i then j else j - 1] == m;
    }
  }

  lemma BypassingLinks(links: Links, head: FsNode?, chain: seq<FsNode>, i: nat)
    requires Linked(links, head, chain) && i < |chain|
    ensures Linked(Bypassed(links, chain, i), if i == 0 then links[chain[0]] else head, Without(chain, i))
  {
    var rest, links' := Without(chain, i), Bypassed(links, chain, i);
    assert links[chain[i]] == At(chain, i + 1);
    forall j | 0 <= j < |rest|
      ensures rest[j] in links' && links'[rest[j]] == At(rest, j + 1)
    {
      BypassedLinkAt(links, head, chain, i, j);
    }
    WithoutStaysDistinct(chain, i);
  }

  lemma WithoutStaysDistinct(chain: seq<FsNode>, i: nat)
    requires i < |chain| && forall j, k :: 0 <= j < k < |chain| ==> chain[j] != chain[k]
    ensures forall j, k :: 0 <= j < k < |Without(chain, i)| ==> Without(chain, i)[j] != Without(chain, i)[k]
  {
    var rest := Without(chain, i);
    forall j, k | 0 <= j < k < |rest|
      ensures rest[j] != rest[k]
    {
      assert rest[j] == chain[if j < i then j else j + 1] && rest[k] == chain[if k < i then k else k + 1];
    }
  }

  lemma BypassedLinkAt(links: Links, head: FsNode?, chain: seq<FsNode>, i: nat, j: nat)
    requires Linked(links, head, chain) && i < |chain| && j < |Without(chain, i)|
    ensures
      var rest, links' := Without(chain, i), Bypassed(links, chain, i);
      rest[j] in links' && links'[rest[j]] == At(rest, j + 1)
  {
    var k := if j < i then j else j + 1;
    assert Without(chain, i)[j] == chain[k] && links[chain[k]] == At(chain, k + 1);
    assert links[chain[i]] == At(chain, i + 1);
  }

  /** Unlinking position `i` of bucket `b`. */
  lemma RemovingKeepsChains(heads: seq<FsNode?>, links: Links, chains: seq<seq<FsNode>>, b: nat, i: nat)
    requires Chained(heads, links, chains) && b < BUCKETS && i < |chains[b]|
    ensures chains[b][i] in links
    ensures
      Chained(if i == 0 then heads[b := links[chains[b][0]]] else heads,
              Bypassed(links, chains[b], i), chains[b := Without(chains[b], i)])
  {
    var chain := chains[b];
    assert Holds(links, heads[b], chain, b);
    var heads' := if i == 0 then heads[b := links[chain[0]]] else heads;
    var links', chains' := Bypassed(links, chain, i), chains[b := Without(chain, i)];
    WithoutMembers(chain, i);
    forall c | 0 <= c < BUCKETS
      ensures Holds(links', heads'[c], chains'[c], c)
    {
      assert Holds(links, heads[c], chains[c], c);
      if c == b {
        BypassingLinks(links, heads[b], chain, i);
      } else {
        BypassedElsewhere(links, chain, i, chains[c]);
        StaysLinked(links, links', heads[c], chains[c]);
      }
    }
    forall m | m in links'
      ensures m in chains'[Home(m)]
    {
      assert m in chains[Home(m)];
    }
  }

  lemma BypassedElsewhere(links: Links, chain: seq<FsNode>, i: nat, other: seq<FsNode>)
    requires i < |chain| && chain[i] in links && forall m :: m in other ==> m !in chain
    ensures
      var links' := Bypassed(links, chain, i);
      forall m :: m in other && m in links ==> m in links' && links'[m] == links[m]
  {
  }

  /**
   * The object with a directory's entries: its own properties, where null stands for a number, and the
   * node it has as its prototype, if any.
   */
  datatype Directory = Directory(names: map<JsString, FsNode?>, proto: FsNode?)

  /** What each directory lists; files list nothing. */
  type Entries = map<FsNode, Directory>

  const EMPTY: Directory := Directory(map[], null)

  /** Nodes have accessors `read` and `write`, which an object inherits with a node as its prototype. */
  predicate Accessor(d: Directory, name: JsString) {
    d.proto != null && name in {READ, WRITE} && name !in d.names
  }

  /**
   * Assigning the entry of `n`: `__proto__` replaces the prototype, an inherited accessor sets `mode`
   * to a number, and any other name becomes a property.
   */
  ghost function Assigned(d: Directory, n: FsNode): Directory {
    if n.name == PROTO then d.(proto := n)
    else if Accessor(d, n.name) then d.(names := d.names[MODE := null])
    else d.(names := d.names[n.name := n])
  }

  /** Deleting an entry; the prototype is no entry, and stays. */
  ghost function Deleted(d: Directory, name: JsString): Directory {
    d.(names := d.names - {name})
  }

  predicate Lists(d: Directory, n: FsNode) {
    n.name in d.names && d.names[n.name] == n
  }

  /** The names under which a directory with a replaced prototype may fail to list a node. */
  predicate Shadowed(d: Directory, name: JsString) {
    d.proto != null && name in {PROTO, READ, WRITE, MODE}
  }

  /** The node of the table called `name` in `d`. */
  predicate IsAt(n: FsNode, d: FsNode, name: JsString) {
    n.parent == d && n.name == name
  }

  ghost function Found(hashed: set<FsNode>, d: FsNode, name: JsString): (n: FsNode?)
    ensures n != null ==> n in hashed && IsAt(n, d, name)
    ensures n == null ==> forall m :: m in hashed ==> !IsAt(m, d, name)
  {
    if m :| m in hashed && IsAt(m, d, name) then m else null
  }

  lemma SameName(hashed: set<FsNode>, d: FsNode, name: JsString, n: FsNode)
    requires Unambiguous(hashed) && n in hashed && IsAt(n, d, name)
    ensures Found(hashed, d, name) == n
  {
    var found := Found(hashed, d, name);
    assert IsAt(found, n.parent, n.name);
  }

  /** No two nodes of the table have one name in one directory. */
  ghost predicate Unambiguous(hashed: set<FsNode>) {
    forall m, n :: m in hashed && n in hashed && IsAt(m, n.parent, n.name) ==> m == n
  }

  /** A node the table leads to is listed by its directory, unless its name is shadowed there. */
  ghost predicate Kept(entries: Entries, root: FsNode, n: FsNode) {
    && n.parent in entries
    && (n == root || Lists(entries[n.parent], n) || Shadowed(entries[n.parent], n.name))
  }

  /** What a directory lists, the table leads to; only `mode` can be a number. */
  ghost predicate Leads(hashed: set<FsNode>, d: FsNode, dir: Directory, name: JsString)
    requires name in dir.names
  {
    var n := dir.names[name];
    if n == null then name == MODE && dir.proto != null else n in hashed && IsAt(n, d, name) && name != PROTO
  }

  /** Table and maps agree up to shadowed names. */
  ghost predicate Agrees(entries: Entries, hashed: set<FsNode>, root: FsNode) {
    && root in entries && root in hashed && hashed <= entries.Keys && Unambiguous(hashed)
    && root.name == ROOT_NAME && root.parent == root && ROOT_NAME !in entries[root].names
    && (forall d :: d in entries && !d.isDirectory ==> entries[d] == EMPTY)
    && (forall d, name {:trigger Leads(hashed, d, entries[d], name)} ::
          d in entries && name in entries[d].names ==> Leads(hashed, d, entries[d], name))
    && (forall n {:trigger Kept(entries, root, n)} :: n in hashed ==> Kept(entries, root, n))
  }

  /** The maps with `n` assigned in its parent, and nothing in `n`. */
  ghost function Entered(entries: Entries, n: FsNode): Entries
    requires n.parent in entries
  {
    entries[n.parent := Assigned(entries[n.parent], n)][n := EMPTY]
  }

  lemma EnteredEitherWay(entries: Entries, n: FsNode)
    requires n !in entries && n.parent in entries
    ensures entries[n := EMPTY][n.parent := Assigned(entries[n.parent], n)] == Entered(entries, n)
  {
  }

  /** An assignment keeps what the directory leads to, in a table with the new node. */
  lemma AssigningLeads(hashed: set<FsNode>, dir: Directory, n: FsNode, name: JsString)
    requires name in Assigned(dir, n).names && (name in dir.names ==> Leads(hashed, n.parent, dir, name))
    ensures Leads(hashed + {n}, n.parent, Assigned(dir, n), name)
  {
  }

  /** An assignment takes no node off the list but one called `mode`, and only under a replaced prototype. */
  lemma AssigningKeeps(entries: Entries, root: FsNode, n: FsNode, m: FsNode)
    requires n !in entries && n.parent in entries && Kept(entries, root, m) && m in entries
    requires !IsAt(m, n.parent, n.name)
    ensures Kept(Entered(entries, n), root, m)
  {
  }

  /** A new node that is hashed and assigned keeps the table and the maps in agreement. */
  lemma EnteringKeepsAgreement(entries: Entries, hashed: set<FsNode>, root: FsNode, n: FsNode)
    requires Agrees(entries, hashed, root) && n !in entries && n.parent in entries && n.parent.isDirectory
    requires Found(hashed, n.parent, n.name) == null && n.name != ROOT_NAME
    ensures Agrees(Entered(entries, n), hashed + {n}, root)
  {
    var after := Entered(entries, n);
    forall d, name | d in after && name in after[d].names
      ensures Leads(hashed + {n}, d, after[d], name)
    {
      if d in entries && name in entries[d].names { assert Leads(hashed, d, entries[d], name); }
      if d == n.parent { AssigningLeads(hashed, entries[d], n, name); }
    }
    forall m | m in hashed + {n}
      ensures Kept(after, root, m)
    {
      if m in hashed {
        assert Kept(entries, root, m) && !IsAt(m, n.parent, n.name);
        AssigningKeeps(entries, root, n, m);
      }
    }
  }

  /** The maps once the entry of `n` is deleted in its parent. */
  ghost function Left(entries: Entries, n: FsNode): Entries
    requires n.parent in entries
  {
    entries[n.parent := Deleted(entries[n.parent], n.name)]
  }

  /** A node that leaves both its parent's map and the table keeps them in agreement. */
  lemma LeavingKeepsAgreement(entries: Entries, hashed: set<FsNode>, root: FsNode, n: FsNode)
    requires Agrees(entries, hashed, root) && n in hashed && n != root
    ensures n.parent in entries && Agrees(Left(entries, n), hashed - {n}, root)
  {
    assert Kept(entries, root, n);
    var after := Left(entries, n);
    forall d, name | d in after && name in after[d].names
      ensures Leads(hashed - {n}, d, after[d], name)
    {
      assert Leads(hashed, d, entries[d], name);
    }
    forall m | m in hashed - {n}
      ensures Kept(after, root, m)
    {
      assert Kept(entries, root, m);
      assert !IsAt(m, n.parent, n.name);
    }
  }

  ghost predicate UniqueIds(nodes: set<FsNode>) {
    forall a, b :: a in nodes && b in nodes && a.id == b.id ==> a == b
  }

  /** Under a name that is not shadowed, the table's node is the listed one, or the root for itself. */
  lemma FoundIsListed(entries: Entries, hashed: set<FsNode>, root: FsNode, d: FsNode, name: JsString, n: FsNode)
    requires Agrees(entries, hashed, root) && d in entries && !Shadowed(entries[d], name)
    ensures
      n == Found(hashed, d, name)
      <==> (name in entries[d].names && entries[d].names[name] == n) || (n == root && d == root && name == ROOT_NAME)
  {
    var found := Found(hashed, d, name);
    if found != null { assert Kept(entries, root, found); }
    if name in entries[d].names {
      assert Leads(hashed, d, entries[d], name);
      assert found != null;
    }
    if d == root && name == ROOT_NAME { assert IsAt(root, d, name); }
  }

  /**
   * Walking the bucket of (`d`, `name`) meets a node of that directory number and name exactly when it
   * is the table's node of that name in `d`. Unless the name is shadowed, that is the node `d` lists
   * under it, or the root for itself.
   */
  lemma BucketsLeadToEntries(
      heads: seq<FsNode?>, links: Links, chains: seq<seq<FsNode>>, entries: Entries, root: FsNode,
      d: FsNode, name: JsString, n: FsNode)
    requires Chained(heads, links, chains) && Agrees(entries, links.Keys, root) && UniqueIds(entries.Keys)
    requires d in entries
    ensures
      n in chains[Bucket(d.id, name)] && n.parent.id == d.id && n.name == name
      <==> n == Found(links.Keys, d, name)
    ensures
      !Shadowed(entries[d], name) ==>
        (n == Found(links.Keys, d, name)
         <==> (name in entries[d].names && entries[d].names[name] == n)
              || (n == root && d == root && name == ROOT_NAME))
  {
    var b := Bucket(d.id, name);
    assert Holds(links, heads[b], chains[b], b);
    if n in chains[b] && n.parent.id == d.id && n.name == name {
      assert n in links && Kept(entries, root, n);
      assert n.parent == d && IsAt(n, d, name);
      SameName(links.Keys, d, name, n);
    }
    var found := Found(links.Keys, d, name);
    if found != null {
      assert Home(found) == b && found in chains[Home(found)];
    }
    if !Shadowed(entries[d], name) { FoundIsListed(entries, links.Keys, root, d, name, n); }
  }

  // ---------------------------------------------------------------- which nodes are listed

  /** The table and the maps as creations and removals change them. */
  datatype Tree = Tree(entries: Entries, hashed: set<FsNode>)

  datatype Change = Enter(n: FsNode) | Leave(n: FsNode)

  ghost predicate Applies(s: Tree, root: FsNode, c: Change) {
    match c
    case Enter(n) =>
      && n !in s.entries && n.parent in s.entries && n.parent.isDirectory
      && Found(s.hashed, n.parent, n.name) == null && n.name != ROOT_NAME
    case Leave(n) => n in s.hashed && n != root && n in s.entries && s.entries[n] == Directory(map[], null)
  }

  ghost function Changed(s: Tree, c: Change): Tree
    requires c.n.parent in s.entries
  {
    match c
    case Enter(n) => Tree(Entered(s.entries, n), s.hashed + {n})
    case Leave(n) => Tree(Left(s.entries, n), s.hashed - {n})
  }

  ghost predicate ChangeAt(root: FsNode, states: seq<Tree>, changes: seq<Change>, i: nat)
    requires i < |changes| < |states|
  {
    Applies(states[i], root, changes[i]) && changes[i].n.parent in states[i].entries
    && states[i + 1] == Changed(states[i], changes[i])
  }

  ghost predicate IsHistory(root: FsNode, states: seq<Tree>, changes: seq<Change>) {
    && |states| == |changes| + 1 && Agrees(states[0].entries, states[0].hashed, root)
    && forall i {:trigger ChangeAt(root, states, changes, i)} :: 0 <= i < |changes| ==>
         ChangeAt(root, states, changes, i)
  }

  lemma {:induction false} HistoryAgrees(root: FsNode, states: seq<Tree>, changes: seq<Change>, k: nat)
    requires IsHistory(root, states, changes) && k <= |changes|
    ensures Agrees(states[k].entries, states[k].hashed, root)
  {
    if k > 0 {
      HistoryAgrees(root, states, changes, k - 1);
      assert ChangeAt(root, states, changes, k - 1);
      var s, c := states[k - 1], changes[k - 1];
      match c
      case Enter(n) => EnteringKeepsAgreement(s.entries, s.hashed, root, n);
      case Leave(n) => LeavingKeepsAgreement(s.entries, s.hashed, root, n);
    }
  }

  /** Every node of the table has its parent there. */
  ghost predicate Parented(s: Tree) {
    forall n {:trigger n.parent} :: n in s.hashed ==> n.parent in s.hashed
  }

  lemma ChangeKeepsParents(root: FsNode, s: Tree, c: Change)
    requires Agrees(s.entries, s.hashed, root) && Applies(s, root, c) && c.n.parent in s.entries && Parented(s)
    requires c.Enter? ==> c.n.parent in s.hashed
    ensures Parented(Changed(s, c))
  {
    if c.Leave? { NothingIn(s, root, c.n); }
  }

  /**
   * Entries that are made in a directory of the table, as a path leads to one, and removed only while
   * they have no entries themselves: then no node of the table ever loses its parent.
   */
  lemma {:induction false} NodesKeepTheirParents(root: FsNode, states: seq<Tree>, changes: seq<Change>, k: nat)
    requires IsHistory(root, states, changes) && k <= |changes| && Parented(states[0])
    requires forall j :: 0 <= j < k && changes[j].Enter? ==> changes[j].n.parent in states[j].hashed
    ensures Parented(states[k])
  {
    if k > 0 {
      NodesKeepTheirParents(root, states, changes, k - 1);
      HistoryAgrees(root, states, changes, k - 1);
      assert ChangeAt(root, states, changes, k - 1);
      ChangeKeepsParents(root, states[k - 1], changes[k - 1]);
    }
  }

  /** The change assigns through an inherited accessor of `d`. */
  predicate SetsMode(s: Tree, c: Change, d: FsNode) {
    c.Enter? && c.n.parent == d && d in s.entries && Accessor(s.entries[d], c.n.name)
  }

  /** Node `n` enters at step `i` and has not left by step `k`. */
  ghost predicate Stays(changes: seq<Change>, i: nat, k: nat, n: FsNode)
    requires k <= |changes|
  {
    i < k && changes[i] == Enter(n) && forall j :: i < j < k ==> changes[j] != Leave(n)
  }

  /** What one later change does to the listing of a node that stays. */
  lemma ChangeOnListed(root: FsNode, s: Tree, c: Change, n: FsNode)
    requires Agrees(s.entries, s.hashed, root) && Applies(s, root, c) && c.n.parent in s.entries
    requires n in s.hashed && n.parent in s.entries && c != Leave(n)
    ensures n in Changed(s, c).hashed && n.parent in Changed(s, c).entries
    ensures
      Lists(Changed(s, c).entries[n.parent], n)
      <==> Lists(s.entries[n.parent], n) && !(n.name == MODE && SetsMode(s, c, n.parent))
  {
    if c.Leave? { assert !IsAt(n, c.n.parent, c.n.name); }
  }

  /**
   * A node of the table is listed by its directory if and only if it was not entered as `__proto__` or
   * through an accessor of a replaced prototype, and is not a `mode` overwritten through one since.
   */
  lemma {:induction false} ListedIff(
      root: FsNode, states: seq<Tree>, changes: seq<Change>, i: nat, k: nat, n: FsNode)
    requires IsHistory(root, states, changes) && k <= |changes| && Stays(changes, i, k, n)
    ensures n in states[k].hashed && n.parent in states[k].entries && n.parent in states[i].entries
    ensures
      Lists(states[k].entries[n.parent], n)
      <==> n.name != PROTO && !Accessor(states[i].entries[n.parent], n.name)
           && (n.name == MODE ==> forall j :: i < j < k ==> !SetsMode(states[j], changes[j], n.parent))
  {
    assert ChangeAt(root, states, changes, k - 1);
    if k == i + 1 {
      HistoryAgrees(root, states, changes, i);
      EnterLists(states[i].entries, states[i].hashed, root, n);
    } else {
      ListedIff(root, states, changes, i, k - 1, n);
      HistoryAgrees(root, states, changes, k - 1);
      ChangeOnListed(root, states[k - 1], changes[k - 1], n);
      assert (forall j :: i < j < k ==> !SetsMode(states[j], changes[j], n.parent))
        <==> (forall j :: i < j < k - 1 ==> !SetsMode(states[j], changes[j], n.parent))
             && !SetsMode(states[k - 1], changes[k - 1], n.parent);
    }
  }

  lemma EnterLists(entries: Entries, hashed: set<FsNode>, root: FsNode, n: FsNode)
    requires Agrees(entries, hashed, root) && n !in entries && n.parent in entries
    ensures Lists(Entered(entries, n)[n.parent], n) <==> n.name != PROTO && !Accessor(entries[n.parent], n.name)
  {
    if n.name in entries[n.parent].names { assert Leads(hashed, n.parent, entries[n.parent], n.name); }
  }

  /**
   * An entry `__proto__` that came and went, and then one called `read`: no node is called `__proto__`
   * any more, the table finds `read`, and its directory does not list it but a `mode` that is no node.
   */
  lemma RemovedProtoHidesRead(root: FsNode, s: Tree, p: FsNode, r: FsNode)
    requires Agrees(s.entries, s.hashed, root) && s.entries != map[]
    requires p.parent in s.entries && p.parent.isDirectory && s.entries[p.parent] == EMPTY && r.parent == p.parent
    requires p !in s.entries && r !in s.entries && p != r && p.name == PROTO && r.name == READ
    ensures
      var states := [s, Changed(s, Enter(p)), Changed(Changed(s, Enter(p)), Leave(p)),
                     Changed(Changed(Changed(s, Enter(p)), Leave(p)), Enter(r))];
      && IsHistory(root, states, [Enter(p), Leave(p), Enter(r)])
      && states[3].hashed == s.hashed + {r} && states[3].entries[r.parent] == Directory(map[MODE := null], p)
  {
    var s1 := Changed(s, Enter(p));
    NothingIn(s, root, p.parent);
    assert Applies(s, root, Enter(p));
    EnteringKeepsAgreement(s.entries, s.hashed, root, p);
    var s2 := Changed(s1, Leave(p));
    assert s2.hashed == s.hashed && s2.entries[p.parent] == Directory(map[], p);
    var s3 := Changed(s2, Enter(r));
    var states, changes := [s, s1, s2, s3], [Enter(p), Leave(p), Enter(r)];
    assert ChangeAt(root, states, changes, 0) && ChangeAt(root, states, changes, 1);
    assert ChangeAt(root, states, changes, 2);
  }

  /** In an empty directory the table has no node, except the root for itself. */
  lemma NothingIn(s: Tree, root: FsNode, d: FsNode)
    requires Agrees(s.entries, s.hashed, root) && d in s.entries && s.entries[d] == EMPTY
    ensures forall n :: n in s.hashed && n.parent == d ==> n == root
  {
    forall n | n in s.hashed && n.parent == d
      ensures n == root
    {
      assert Kept(s.entries, root, n);
    }
  }

  class FsTable {
    const buckets: array<FsNode?>
    const root: FsNode
    var nextId: nat
    // Permissions are ignored until the runtime has started.
    var ignorePermissions: bool

    ghost var nodes: set<FsNode>           // every node ever created
    ghost var byId: map<nat, FsNode>
    ghost var hashed: set<FsNode>          // the nodes some bucket leads to
    ghost var chains: seq<seq<FsNode>>     // the nodes of each bucket, in walking order

    ghost function Next(): Links
      reads this`hashed, hashed`next
    {
      map m | m in hashed :: m.next
    }

    ghost predicate Hashed()
      reads this`hashed, this`chains, buckets, hashed`next
    {
      Chained(buckets[..], Next(), chains)
    }

    ghost predicate Identified()
      reads this`nodes, this`nextId, this`byId
    {
      && (forall n :: n in nodes ==> n.id < nextId && n.id in byId && byId[n.id] == n)
      && (forall n {:trigger n.parent} :: n in nodes ==> n.parent in nodes && (n.parent == n ==> n == root))
      && root in nodes && root.parent == root && root.name == ROOT_NAME && root.isDirectory
    }

    ghost function Listing(): Entries
      reads this`nodes, nodes`children, nodes`proto
    {
      map d | d in nodes :: Directory(d.children, d.proto)
    }

    ghost function Shown(): Tree
      reads this`nodes, this`hashed, nodes`children, nodes`proto
    {
      Tree(Listing(), hashed)
    }

    ghost predicate Valid()
      reads this, buckets, hashed`next, nodes`children, nodes`proto
    {
      Hashed() && Identified() && Agrees(Listing(), hashed, root)
    }

    /** `nodePermissions` */
    predicate Permitted(n: FsNode, write: bool)
      reads this`ignorePermissions, n`permissions
    {
      ignorePermissions || (n.permissions.search && (write ==> n.permissions.write))
    }

    constructor ()
      ensures Valid() && fresh(buckets) && fresh(root) && Listing() == map[root := EMPTY] && ignorePermissions
    {
      var first := new FsNode.Root(1);
      buckets := new FsNode?[BUCKETS](_ => null);
      root := first;
      nextId := 2;
      ignorePermissions := true;
      nodes := {first};
      byId := map[1 := first];
      hashed := {};
      chains := seq(BUCKETS, _ => []);
      new;
      HashAdd(first);
    }

    /** Walks one bucket for the entry `name` of directory `d`. */
    method Walk(b: nat, d: FsNode, name: JsString) returns (n: FsNode?)
      requires Hashed() && b < BUCKETS
      ensures n != null ==> n in hashed && n in chains[b] && n.parent.id == d.id && n.name == name
      ensures n == null ==> forall m :: m in chains[b] ==> !(m.parent.id == d.id && m.name == name)
    {
      ghost var links, chain := Next(), chains[b];
      ghost var i := 0;
      assert Holds(links, buckets[..][b], chain, b);
      n := buckets[b];
      while n != null
        invariant 0 <= i <= |chain|
        invariant n == At(chain, i)
        invariant forall k :: 0 <= k < i ==> !(chain[k].parent.id == d.id && chain[k].name == name)
        decreases |chain| - i
      {
        if n.parent.id == d.id && n.name == name {
          return;
        }
        assert links[chain[i]] == n.next;
        n := n.next;
        i := i + 1;
      }
    }

    /** `lookupNode`: hashes the name and walks the bucket. */
    method Lookup(d: FsNode, name: JsString) returns (r: Result<FsNode, nat>)
      requires Valid() && d in nodes
      ensures r == Err(2) <==> !d.isDirectory || !(ignorePermissions || d.permissions.search)
      ensures r == Err(44) <==> r != Err(2) && forall m :: m in hashed ==> !(m.parent == d && m.name == name)
      ensures r.Ok? ==> r.value in hashed && r.value.parent == d && r.value.name == name
      ensures r.Ok? ==> r.value == Found(hashed, d, name)
      ensures r.Err? ==> r.error in {2, 44}
    {
      if !Permitted(d, false) || !d.isDirectory {
        return Err(EACCES);
      }
      var b := HashName(d.id, name);
      var n := Walk(b, d, name);
      WalkMeetsFound(b, d, name, n);
      r := if n == null then Err(ENOENT) else Ok(n);
    }

    /** What the walk through the right bucket meets is what the lookup is to find. */
    lemma WalkMeetsFound(b: nat, d: FsNode, name: JsString, n: FsNode?)
      requires Valid() && d in nodes && b == Bucket(d.id, name)
      requires n != null ==> n in chains[b] && n.parent.id == d.id && n.name == name
      requires n == null ==> forall m :: m in chains[b] ==> !(m.parent.id == d.id && m.name == name)
      ensures n == Found(hashed, d, name)
    {
      var found := Found(hashed, d, name);
      assert UniqueIds(Listing().Keys) && Next().Keys == hashed;
      if n != null {
        BucketsLeadToEntries(buckets[..], Next(), chains, Listing(), root, d, name, n);
      } else if found != null {
        BucketsLeadToEntries(buckets[..], Next(), chains, Listing(), root, d, name, found);
      }
    }

    /** Puts `n` at the head of its bucket. */
    method HashAdd(n: FsNode)
      requires Hashed() && n !in hashed
      modifies buckets, this`hashed, this`chains, n`next
      ensures Hashed() && hashed == old(hashed) + {n}
    {
      var b := HashName(n.parent.id, n.name);
      AddingKeepsChains(buckets[..], Next(), chains, n);
      n.next := buckets[b];
      buckets[b] := n;
      hashed := hashed + {n};
      chains := chains[b := [n] + chains[b]];
      assert buckets[..] == old(buckets[..])[b := n];
      assert Next() == old(Next())[n := old(buckets[b])];
    }

    /** `FS.createNode`: a new node takes the next number and enters its bucket. */
    method Register(parent: FsNode, name: JsString, isDirectory: bool, permissions: Permissions) returns (n: FsNode)
      requires Hashed() && Identified() && hashed <= nodes && parent in nodes
      modifies this`nextId, this`nodes, this`byId, this`hashed, this`chains, buckets
      ensures Hashed() && Identified() && fresh(n) && hashed == old(hashed) + {n}
      ensures n.parent == parent && n.name == name && n.isDirectory == isDirectory && n.permissions == permissions
      ensures nodes == old(nodes) + {n} && Listing() == old(Listing())[n := EMPTY]
    {
      n := new FsNode(nextId, parent, name, isDirectory, permissions);
      nextId := nextId + 1;
      nodes := nodes + {n};
      byId := byId[n.id := n];
      HashAdd(n);
      assert Listing() == old(Listing())[n := EMPTY];
    }

    /** The assignment into the object with the parent's entries, as a script engine carries it out. */
    method Assign(n: FsNode)
      requires n.parent in nodes
      modifies n.parent`children, n.parent`proto
      ensures Listing() == old(Listing())[n.parent := Assigned(old(Listing())[n.parent], n)]
    {
      if n.name == PROTO {
        n.parent.proto := n;
      } else if n.parent.proto != null && n.name in {READ, WRITE} && n.name !in n.parent.children {
        n.parent.children := n.parent.children[MODE := null];
      } else {
        n.parent.children := n.parent.children[n.name := n];
      }
      assert Listing() == old(Listing())[n.parent := Assigned(old(Listing())[n.parent], n)];
    }

    /** `MEMFS.createNode`: the new node also enters its parent's map. */
    method CreateNode(parent: FsNode, name: JsString, isDirectory: bool, permissions: Permissions) returns (n: FsNode)
      requires Valid() && parent in nodes && parent.isDirectory
      requires Found(hashed, parent, name) == null && name != ROOT_NAME
      modifies this`nextId, this`nodes, this`byId, this`hashed, this`chains, buckets, parent`children, parent`proto
      ensures Valid() && fresh(n) && hashed == old(hashed) + {n}
      ensures n.parent == parent && n.name == name && n.isDirectory == isDirectory && n.permissions == permissions
      ensures Listing() == Entered(old(Listing()), n)
    {
      n := Register(parent, name, isDirectory, permissions);
      assert Agrees(Entered(old(Listing()), n), hashed, root) by {
        EnteringKeepsAgreement(old(Listing()), old(hashed), root, n);
      }
      assert Listing()[n.parent := Assigned(Listing()[n.parent], n)] == Entered(old(Listing()), n) by {
        EnteredEitherWay(old(Listing()), n);
      }
      Assign(n);
    }

    /** `hashRemoveNode`: unlinks `n` from its bucket. */
    method HashRemove(n: FsNode)
      requires Hashed() && n in hashed
      modifies buckets, this`hashed, this`chains, hashed`next
      ensures Hashed() && hashed == old(hashed) - {n}
    {
      var b := HashName(n.parent.id, n.name);
      ghost var chain := chains[b];
      assert b == Home(n) && n in chain;
      ghost var i :| 0 <= i < |chain| && chain[i] == n;
      RemovingKeepsChains(buckets[..], Next(), chains, b, i);
      Bypass(b, n, i);
      hashed := hashed - {n};
      chains := chains[b := Without(chain, i)];
      assert Next() == Bypassed(old(Next()), chain, i);
    }

    /** Finds what leads to `n` in bucket `b`, and makes it lead past `n`. */
    method Bypass(b: nat, n: FsNode, ghost i: nat)
      requires Hashed() && b < BUCKETS && i < |chains[b]| && chains[b][i] == n
      modifies buckets, hashed`next
      ensures n in hashed && buckets[..] == if i == 0 then old(buckets[..])[b := old(n.next)] else old(buckets[..])
      ensures Next() == if i == 0 then old(Next()) else old(Next())[chains[b][i - 1] := old(n.next)]
    {
      ghost var links, chain := Next(), chains[b];
      assert Holds(links, buckets[..][b], chain, b);
      if buckets[b] == n {
        buckets[b] := n.next;
        return;
      }
      var p := buckets[b];
      ghost var k := 0;
      while p != null
        invariant 0 <= k < i && p == chain[k] && buckets[..] == old(buckets[..]) && Next() == links
        decreases i - k
      {
        assert links[chain[k]] == p.next == At(chain, k + 1);
        if p.next == n {
          p.next := n.next;
          assert Next() == links[p := old(n.next)];
          return;
        }
        p := p.next;
        k := k + 1;
      }
    }

    /** The name a path's last component can be: no separator, or the root naming itself. */
    predicate Basename(d: FsNode, name: JsString) {
      SLASH in name ==> d == root && name == ROOT_NAME
    }

    predicate Reserved(name: JsString) {
      name == [] || name == [DOT] || name == [DOT, DOT]
    }

    /** What a lookup in a directory that may be searched finds. */
    ghost function Finds(d: FsNode, name: JsString): FsNode?
      requires d in nodes
      reads this, d`permissions
    {
      if d.isDirectory && (ignorePermissions || d.permissions.search) then Found(hashed, d, name) else null
    }

    /** `mknod`, which also serves `mkdir` and file creation. */
    method MkNod(parent: FsNode, name: JsString, isDirectory: bool, permissions: Permissions)
      returns (r: Result<FsNode, nat>)
      requires Valid() && parent in nodes && Basename(parent, name)
      modifies this`nextId, this`nodes, this`byId, this`hashed, this`chains, buckets, parent`children, parent`proto
      ensures Valid()
      ensures r == Err(28) <==> name in {[], [46], [46, 46]}
      ensures r == Err(20) <==> r != Err(28) && old(Finds(parent, name)) != null
      ensures
        r == Err(2)
        <==> r !in {Err(28), Err(20)} && !ignorePermissions && !(parent.permissions.search && parent.permissions.write)
      ensures r == Err(63) <==> r !in {Err(28), Err(20), Err(2)} && !parent.isDirectory
      ensures r.Err? ==> r.error in {28, 20, 2, 63} && Shown() == old(Shown())
      ensures
        r.Ok? ==>
          && fresh(r.value) && r.value.parent == parent && r.value.name == name
          && r.value.isDirectory == isDirectory && r.value.permissions == permissions
          && Applies(old(Shown()), root, Enter(r.value)) && Shown() == Changed(old(Shown()), Enter(r.value))
    {
      var refused := MayCreate(parent, name);
      if refused.Some? {
        return Err(refused.value);
      }
      var n := CreateNode(parent, name, isDirectory, permissions);
      r := Ok(n);
    }

    /** The checks of `mknod`: a reserved name, an existing entry, permissions, and a file as parent. */
    method MayCreate(parent: FsNode, name: JsString) returns (refused: Option<nat>)
      requires Valid() && parent in nodes && Basename(parent, name)
      ensures refused == Some(28) <==> name in {[], [46], [46, 46]}
      ensures refused == Some(20) <==> refused != Some(28) && Finds(parent, name) != null
      ensures
        refused == Some(2)
        <==> refused !in {Some(28), Some(20)} && !ignorePermissions
             && !(parent.permissions.search && parent.permissions.write)
      ensures refused == Some(63) <==> refused !in {Some(28), Some(20), Some(2)} && !parent.isDirectory
      ensures refused.Some? ==> refused.value in {28, 20, 2, 63}
      ensures
        refused.None? ==>
          parent.isDirectory && Found(hashed, parent, name) == null && name != ROOT_NAME
    {
      if Reserved(name) {
        return Some(EINVAL);
      }
      var present := Lookup(parent, name);
      if present.Ok? {
        return Some(EEXIST);
      }
      if !Permitted(parent, true) {
        return Some(EACCES);
      }
      refused := if parent.isDirectory then None else Some(EPERM);
    }

    /** `delete` on the parent's map: the table alone still leads to `n`. */
    method Forget(n: FsNode)
      requires n.parent in nodes
      modifies n.parent`children
      ensures Listing() == Left(old(Listing()), n)
    {
      n.parent.children := n.parent.children - {n.name};
      assert Listing() == Left(old(Listing()), n);
    }

    /** Takes the entry, which has none itself, out of the parent's map and the table. */
    method Leave(n: FsNode)
      requires Valid() && n in hashed && n != root && n.children == map[] && n.proto == null
      modifies n.parent`children, buckets, this`hashed, this`chains, hashed`next
      ensures Valid() && nodes == old(nodes) && hashed == old(hashed) - {n}
      ensures Applies(old(Shown()), root, Change.Leave(n)) && n.parent in old(Listing())
      ensures Shown() == Changed(old(Shown()), Change.Leave(n))
    {
      LeavingKeepsAgreement(Listing(), hashed, root, n);
      Forget(n);
      HashRemove(n);
    }

    /** The common front of removals: the lookup, and the permission to write the parent. */
    method LookForRemoval(parent: FsNode, name: JsString) returns (r: Result<FsNode, nat>)
      requires Valid() && parent in nodes
      ensures
        var found := Finds(parent, name);
        var writable := ignorePermissions || (parent.permissions.search && parent.permissions.write);
        && (r == Err(44)
            <==> found == null && parent.isDirectory && (ignorePermissions || parent.permissions.search))
        && (r == Err(2) <==> r != Err(44) && (found == null || !writable))
        && (r.Err? ==> r.error in {44, 2})
        && (r.Ok? ==> found != null && r.value == found)
    {
      r := Lookup(parent, name);
      if r.Ok? && !Permitted(parent, true) {
        r := Err(EACCES);
      }
    }

    /** `unlink` */
    method Unlink(parent: FsNode, name: JsString) returns (error: nat)
      requires Valid() && parent in nodes
      modifies parent`children, buckets, this`hashed, this`chains, hashed`next
      ensures Valid()
      ensures
        var found := old(Finds(parent, name));
        var writable := ignorePermissions || (parent.permissions.search && parent.permissions.write);
        && (error == 44
            <==> found == null && parent.isDirectory && (ignorePermissions || parent.permissions.search))
        && (error == 2 <==> error != 44 && (found == null || !writable))
        && (error == 31 <==> error !in {44, 2} && found.isDirectory)
        && error in {0, 44, 2, 31}
        && (error == 0 ==>
              && found.parent == parent && found.name == name && !found.isDirectory
              && Applies(old(Shown()), root, Change.Leave(found))
              && Shown() == Changed(old(Shown()), Change.Leave(found)))
        && (error != 0 ==> Shown() == old(Shown()))
    {
      var found := LookForRemoval(parent, name);
      if found.Err? {
        return found.error;
      }
      if found.value.isDirectory {
        return EISDIR;
      }
      assert Listing()[found.value] == EMPTY;
      Leave(found.value);
      error := 0;
    }

    /** `rmdir`: the loop over a directory's entries meets those of a replaced prototype too. */
    method RmDir(parent: FsNode, name: JsString) returns (error: nat)
      requires Valid() && parent in nodes
      modifies parent`children, buckets, this`hashed, this`chains, hashed`next
      ensures Valid()
      ensures
        var found := old(Finds(parent, name));
        var writable := ignorePermissions || (parent.permissions.search && parent.permissions.write);
        && (error == 44
            <==> found == null && parent.isDirectory && (ignorePermissions || parent.permissions.search))
        && (error == 2 <==> error != 44 && (found == null || !writable))
        && (error == 54 <==> error !in {44, 2} && !found.isDirectory)
        && (error == 10 <==> error !in {44, 2, 54} && found == root)
        && (error == 55 <==> error !in {44, 2, 54, 10} && old(Listing())[found] != Directory(map[], null))
        && error in {0, 44, 2, 54, 10, 55}
        && (error == 0 ==>
              && found.parent == parent && found.name == name && found.isDirectory
              && Applies(old(Shown()), root, Change.Leave(found))
              && Shown() == Changed(old(Shown()), Change.Leave(found)))
        && (error != 0 ==> Shown() == old(Shown()))
    {
      var found := LookForRemoval(parent, name);
      if found.Err? {
        return found.error;
      }
      if !found.value.isDirectory {
        return ENOTDIR;
      }
      if found.value == found.value.parent {
        return EBUSY;
      }
      assert Listing()[found.value] == Directory(found.value.children, found.value.proto);
      if found.value.children != map[] || found.value.proto != null {
        return ENOTEMPTY;
      }
      Leave(found.value);
      error := 0;
    }

    /** `chmod` */
    method ChMod(n: FsNode, permissions: Permissions)
      requires Valid()
      modifies n`permissions
      ensures Valid() && n.permissions == permissions && Listing() == old(Listing()) && hashed == old(hashed)
    {
      n.permissions := permissions;
    }

    /** The start of the runtime turns permission checks on. */
    method Start()
      requires Valid()
      modifies this`ignorePermissions
      ensures Valid() && !ignorePermissions && Listing() == old(Listing()) && hashed == old(hashed)
    {
      ignorePermissions := false;
    }
  }
}
