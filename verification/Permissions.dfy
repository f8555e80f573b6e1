/** Block permissions and the default rules by which a node asks its children for them. */
module Permissions {

  datatype Perm = ConsistentRead | Write | WriteUnchanged | Resize
  type Perms = set<Perm>

  const ALL: Perms := {ConsistentRead, Write, WriteUnchanged, Resize}
  const PASSTHROUGH: Perms := {ConsistentRead, Write, WriteUnchanged, Resize}
  const UNCHANGED: Perms := ALL - PASSTHROUGH

  lemma AllIsAll()
    ensures forall p: Perm :: p in ALL
  {
    forall p: Perm ensures p in ALL {
      match p {
        case ConsistentRead => case Write => case WriteUnchanged => case Resize =>
      }
    }
  }

  /** What a user of a node needs, and what it lets other users do. */
  datatype Access = Access(perm: Perms, shared: Perms)

  /** `a` needs no more and allows no less than `b`. */
  predicate Looser(a: Access, b: Access) {
    a.perm <= b.perm && b.shared <= a.shared
  }

  predicate NeedsWrite(a: Access) {
    Write in a.perm || WriteUnchanged in a.perm
  }

  datatype Role = RoleData | RoleMetadata | RoleFiltered | RoleCow | RolePrimary

  /** What the rules look at in a node: writable after reopen, BDRV_O_NO_IO and BDRV_O_INACTIVE. */
  datatype NodeFlags = NodeFlags(writable: bool, noIo: bool, inactive: bool)

  /** block.c:2773-2782 */
  function FilterDefaultPerms(a: Access): Access {
    Access(a.perm * PASSTHROUGH, a.shared * PASSTHROUGH + UNCHANGED)
  }

  /** block.c:2784-2818 */
  function DefaultPermsForCow(f: NodeFlags, a: Access): Access {
    Access(a.perm * {ConsistentRead},
           (if Write in a.shared then {Write, Resize} else {})
           + {ConsistentRead, WriteUnchanged}
           + (if f.inactive then {Write, Resize} else {}))
  }

  /** block.c:2820-2898 */
  function DefaultPermsForStorage(role: set<Role>, f: NodeFlags, a: Access): Access {
    var b := FilterDefaultPerms(a);
    var b1 := if RoleMetadata !in role then b else
      Access(b.perm + (if f.writable then {Write, Resize} else {}) + (if f.noIo then {} else {ConsistentRead}),
             b.shared - {Write, Resize});
    var b2 := if RoleData !in role then b1 else
      var p := if WriteUnchanged in b1.perm then b1.perm + {Write} else b1.perm;
      Access(if Write in p then p + {Resize} else p, b1.shared - {Resize});
    Access(b2.perm, b2.shared + (if f.inactive then {Write, Resize} else {}))
  }

  /** The role combinations that block.c:2905-2920 accepts. */
  predicate ValidRole(role: set<Role>) {
    if RoleFiltered in role then role !! {RoleData, RoleMetadata, RoleCow}
    else if RoleCow in role then role !! {RoleData, RoleMetadata}
    else RoleMetadata in role || RoleData in role
  }

  /** block.c:2900-2921 */
  function DefaultPerms(role: set<Role>, f: NodeFlags, a: Access): Access
    requires ValidRole(role)
  {
    if RoleFiltered in role then FilterDefaultPerms(a)
    else if RoleCow in role then DefaultPermsForCow(f, a)
    else DefaultPermsForStorage(role, f, a)
  }

  /** A backing file is only read, and may be written by others exactly if the node's users can deal with
      that or the node is inactive. */
  lemma CowOnlyReads(f: NodeFlags, a: Access)
    ensures var r := DefaultPermsForCow(f, a);
      && r.perm <= {ConsistentRead} && r.perm <= a.perm
      && (ConsistentRead in a.perm ==> ConsistentRead in r.perm)
      && {ConsistentRead, WriteUnchanged} <= r.shared
      && (Write in r.shared <==> Write in a.shared || f.inactive)
      && (Resize in r.shared <==> Write in r.shared)
  {}

  /** What a storage child is asked for: the node's own needs, writing and resizing of metadata on behalf
      of a writable node, reading of metadata, and for data every write with the right to grow. */
  lemma StorageNeeds(role: set<Role>, f: NodeFlags, a: Access)
    ensures var r := DefaultPermsForStorage(role, f, a);
      && (ConsistentRead in r.perm <==> ConsistentRead in a.perm || (RoleMetadata in role && !f.noIo))
      && (WriteUnchanged in r.perm <==> WriteUnchanged in a.perm)
      && (Write in r.perm <==> Write in a.perm || (RoleMetadata in role && f.writable)
                               || (RoleData in role && WriteUnchanged in a.perm))
      && (Resize in r.perm <==> Resize in a.perm || (RoleMetadata in role && f.writable)
                                || (RoleData in role && Write in r.perm))
  {}

  /** While the node is active nobody else may write or resize metadata, nor resize data. */
  lemma StorageShares(role: set<Role>, f: NodeFlags, a: Access)
    ensures var r := DefaultPermsForStorage(role, f, a);
      && (ConsistentRead in r.shared <==> ConsistentRead in a.shared)
      && (WriteUnchanged in r.shared <==> WriteUnchanged in a.shared)
      && (Write in r.shared <==> f.inactive || (Write in a.shared && RoleMetadata !in role))
      && (Resize in r.shared <==> f.inactive || (Resize in a.shared && role !! {RoleMetadata, RoleData}))
  {}

  /** For a child that holds metadata, the rules for data add nothing exactly if the node is writable or
      its users ask for writes only together with the right to resize. */
  lemma DataAddsNothingIff(role: set<Role>, f: NodeFlags, a: Access)
    requires RoleMetadata in role && RoleData !in role
    ensures DefaultPermsForStorage(role + {RoleData}, f, a) == DefaultPermsForStorage(role, f, a) <==>
      f.writable || ((WriteUnchanged in a.perm ==> Write in a.perm) && (Write in a.perm ==> Resize in a.perm))
  {
    var x, y := DefaultPermsForStorage(role + {RoleData}, f, a), DefaultPermsForStorage(role, f, a);
    StorageNeeds(role + {RoleData}, f, a);
    StorageNeeds(role, f, a);
    StorageShares(role + {RoleData}, f, a);
    StorageShares(role, f, a);
    assert x.perm == y.perm <==> forall p :: p in ALL ==> (p in x.perm <==> p in y.perm) by { AllIsAll(); }
    assert x.shared == y.shared by {
      AllIsAll();
      forall p | p in ALL ensures p in x.shared <==> p in y.shared {}
    }
  }

  /** It is not always so: for a read-only node whose user asks to write, the rule for data adds Resize. */
  lemma DataCanMatter()
    ensures var f, a := NodeFlags(false, false, false), Access({Write}, ALL);
      DefaultPermsForStorage({RoleMetadata, RoleData}, f, a) != DefaultPermsForStorage({RoleMetadata}, f, a)
  {
    var f, a := NodeFlags(false, false, false), Access({Write}, ALL);
    StorageNeeds({RoleMetadata, RoleData}, f, a);
    StorageNeeds({RoleMetadata}, f, a);
    assert Resize in DefaultPermsForStorage({RoleMetadata, RoleData}, f, a).perm;
  }

  /** Two users of one node do not get along: bdrv_a_allow_b fails one way or the other. */
  predicate Clash(x: Access, y: Access) {
    !(x.perm <= y.shared) || !(y.perm <= x.shared)
  }

  /** Any number of overlays can share a backing file, whatever their own users do. */
  lemma OverlaysShareBacking(f: NodeFlags, a: Access, f': NodeFlags, a': Access)
    ensures !Clash(DefaultPermsForCow(f, a), DefaultPermsForCow(f', a'))
  {
    CowOnlyReads(f, a);
    CowOnlyReads(f', a');
  }

  /** Two active nodes can keep metadata in one node exactly if neither asks to write or resize it and each
      asks only for what the other's users allow; so a writable node has its metadata to itself. */
  lemma MetadataSharedIff(role: set<Role>, f: NodeFlags, a: Access, role': set<Role>, f': NodeFlags, a': Access)
    requires RoleMetadata in role && RoleMetadata in role' && !f.inactive && !f'.inactive
    ensures var x, y := DefaultPermsForStorage(role, f, a), DefaultPermsForStorage(role', f', a');
      && (!Clash(x, y) <==> x.perm + y.perm !! {Write, Resize} && x.perm <= a'.shared && y.perm <= a.shared)
      && (f.writable || f'.writable ==> Clash(x, y))
  {
    StorageNeeds(role, f, a);
    StorageShares(role, f, a);
    StorageNeeds(role', f', a');
    StorageShares(role', f', a');
    var x, y := DefaultPermsForStorage(role, f, a), DefaultPermsForStorage(role', f', a');
    assert forall p :: p in x.shared <==> p in a.shared && p != Write && p != Resize;
    assert forall p :: p in y.shared <==> p in a'.shared && p != Write && p != Resize;
  }

  lemma StorageMonotone(role: set<Role>, f: NodeFlags, a: Access, b: Access)
    requires Looser(a, b)
    ensures Looser(DefaultPermsForStorage(role, f, a), DefaultPermsForStorage(role, f, b))
  {
    assert Looser(FilterDefaultPerms(a), FilterDefaultPerms(b));
    var x, y := DefaultPermsForStorage(role, f, a), DefaultPermsForStorage(role, f, b);
    forall p | p in x.perm ensures p in y.perm {}
    forall p | p in y.shared ensures p in x.shared {}
  }

  /** A node whose users are less demanding is less demanding itself. */
  lemma DefaultPermsMonotone(role: set<Role>, f: NodeFlags, a: Access, b: Access)
    requires ValidRole(role) && Looser(a, b)
    ensures Looser(DefaultPerms(role, f, a), DefaultPerms(role, f, b))
  {
    if RoleFiltered !in role && RoleCow !in role {
      StorageMonotone(role, f, a, b);
    }
  }
}
