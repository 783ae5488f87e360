/** Sessions (server/models/session.py): a session is a user's view of a list
    of Girder folders and items, each mounted at a path. The model keeps the
    session documents in a table, and abstracts the Girder folder and item
    collections as a hierarchy of parent links and name lookups. */
module Sessions {
  import opened Base

  type ObjectId = string

  datatype User = User(id: UserId, admin: bool)

  /** An element of a session's dataSet: a folder or item id and where it is
      mounted. */
  datatype DataSetEntry = DataSetEntry(itemId: ObjectId, mountPath: string)

  datatype Tale = Tale(id: string, involatileData: seq<DataSetEntry>)

  /** A session document. Documents written by older code carry `userId`
      instead of `ownerId`; `dataSet` is None when the session was created
      without one. */
  datatype SessionDoc = SessionDoc(id: nat, ownerId: Option<UserId>, userId: Option<UserId>, seqNo: int,
                                   taleId: Option<string>, dataSet: Option<seq<DataSetEntry>>)

  /** What Girder knows about folders and items: a folder's `parentId`, an
      item's `folderId`, and the child folder or item with a given name under a
      given parent. */
  datatype Hierarchy = Hierarchy(folderParent: map<ObjectId, ObjectId>,
                                 itemFolder: map<ObjectId, ObjectId>,
                                 folderNamed: map<(ObjectId, string), ObjectId>,
                                 itemNamed: map<(ObjectId, string), ObjectId>)

  datatype ObjKind = Folder | File

  /** A loaded object, tagged with the `type` the code gives it. */
  datatype Obj = Obj(id: ObjectId, kind: ObjKind)

  // ---------------------------------------------------------------------------
  // Creation, modification and ownership

  /** The document `createSession` saves: owned by the creator, at seq 0; a
      tale's involatile data wins over the `dataSet` argument. */
  function NewSession(id: nat, user: User, dataSet: Option<seq<DataSetEntry>>, tale: Option<Tale>): (s: SessionDoc)
    ensures s.id == id && s.ownerId == Some(user.id) && s.userId.None? && s.seqNo == 0
    ensures tale.Some? ==> s.dataSet == Some(tale.value.involatileData) && s.taleId == Some(tale.value.id)
    ensures tale.None? ==> s.dataSet == dataSet && s.taleId.None?
  {
    match tale
    case Some(t) => SessionDoc(id, Some(user.id), None, 0, Some(t.id), Some(t.involatileData))
    case None => SessionDoc(id, Some(user.id), None, 0, None, dataSet)
  }

  /** The owner recorded on a document: `ownerId`, or `userId` for older ones. */
  function Owner(session: SessionDoc): Option<UserId> {
    if session.ownerId.Some? then session.ownerId else session.userId
  }

  /** `checkOwnership`: admins own every session; anyone else must be the
      recorded owner. A document with neither owner field raises KeyError. */
  function CheckOwnership(user: User, session: SessionDoc): (r: Result<bool>)
    ensures r.Ok? <==> user.admin || Owner(session) == Some(user.id)
    ensures r.Ok? ==> r.value
    ensures !user.admin && Owner(session).None? ==> r == Err(KeyError("userId"))
    ensures !user.admin && Owner(session).Some? && r.Err? ==>
      r == Err(AccessError("Current user is not the session owner"))
  {
    if user.admin then Ok(true)
    else if session.ownerId.None? && session.userId.None? then Err(KeyError("userId"))
    else
      var ownerId := if session.ownerId.Some? then session.ownerId.value else session.userId.value;
      if ownerId != user.id then Err(AccessError("Current user is not the session owner"))
      else Ok(true)
  }

  /** A freshly created session may be modified by its creator and by admins,
      and by nobody else. */
  lemma OnlyCreatorOrAdminOwns(id: nat, creator: User, dataSet: Option<seq<DataSetEntry>>, tale: Option<Tale>, user: User)
    ensures CheckOwnership(user, NewSession(id, creator, dataSet, tale)).Ok? <==> user.admin || user.id == creator.id
  {
  }

  /** The session table. Ids come from a counter. */
  class SessionModel {
    var sessions: map<nat, SessionDoc>
    var nextId: nat

    ghost predicate Valid()
      reads this
    {
      forall k :: k in sessions ==> k < nextId && sessions[k].id == k
    }

    constructor()
      ensures Valid() && sessions == map[] && nextId == 0
    {
      sessions := map[];
      nextId := 0;
    }

    /** `createSession`: save a new document and return it. */
    method CreateSession(user: User, dataSet: Option<seq<DataSetEntry>>, tale: Option<Tale>) returns (s: SessionDoc)
      requires Valid()
      modifies this
      ensures Valid()
      ensures s == NewSession(old(nextId), user, dataSet, tale)
      ensures s.id !in old(sessions) && sessions == old(sessions)[s.id := s]
    {
      s := NewSession(nextId, user, dataSet, tale);
      sessions := sessions[nextId := s];
      nextId := nextId + 1;
    }

    /** `modifySession`: after the ownership check, add exactly 1 to the stored
        seq and replace the dataSet, then reload the document (None when it is
        no longer stored). */
    method ModifySession(user: User, session: SessionDoc, dataSet: seq<DataSetEntry>) returns (r: Result<Option<SessionDoc>>)
      requires Valid()
      modifies this
      ensures Valid() && nextId == old(nextId)
      ensures r.Err? <==> CheckOwnership(user, session).Err?
      ensures r.Err? ==> r.error == CheckOwnership(user, session).error && sessions == old(sessions)
      ensures r.Ok? && session.id in old(sessions) ==>
        var doc := old(sessions)[session.id];
        && sessions == old(sessions)[session.id := doc.(seqNo := doc.seqNo + 1, dataSet := Some(dataSet))]
        && r.value == Some(sessions[session.id])
      ensures r.Ok? && session.id !in old(sessions) ==> sessions == old(sessions) && r.value.None?
    {
      var check := CheckOwnership(user, session);
      if check.Err? {
        return Err(check.error);
      }
      if session.id in sessions {
        var doc := sessions[session.id];
        sessions := sessions[session.id := doc.(seqNo := doc.seqNo + 1, dataSet := Some(dataSet))];
        return Ok(Some(sessions[session.id]));
      }
      return Ok(None);
    }

    /** `deleteSession`: after the ownership check, remove the document. */
    method DeleteSession(user: User, session: SessionDoc) returns (r: Result<bool>)
      requires Valid()
      modifies this
      ensures Valid() && nextId == old(nextId)
      ensures r == CheckOwnership(user, session)
      ensures r.Ok? ==> sessions == old(sessions) - {session.id}
      ensures r.Err? ==> sessions == old(sessions)
    {
      r := CheckOwnership(user, session);
      if r.Ok? {
        sessions := sessions - {session.id};
      }
    }
  }

  // ---------------------------------------------------------------------------
  // Ancestry

  /** `_getParentId`: a folder's parent, else an item's folder, else None. */
  function GetParentId(h: Hierarchy, id: ObjectId): Option<ObjectId> {
    if id in h.folderParent then Some(h.folderParent[id])
    else if id in h.itemFolder then Some(h.itemFolder[id])
    else None
  }

  /** The hierarchy has no cycles: every parent link goes to a smaller rank. */
  ghost predicate Ranked(h: Hierarchy, rank: map<ObjectId, nat>) {
    forall x :: GetParentId(h, x).Some? ==>
      x in rank && GetParentId(h, x).value in rank && rank[GetParentId(h, x).value] < rank[x]
  }

  function Height(id: Option<ObjectId>, rank: map<ObjectId, nat>): nat {
    if id.None? then 0 else if id.value in rank then rank[id.value] + 2 else 1
  }

  /** `_containsItemOrAncestor`: walk up the parent links until an id in the
      set or the top. */
  function ContainsItemOrAncestor(idSet: set<ObjectId>, id: Option<ObjectId>, h: Hierarchy, ghost rank: map<ObjectId, nat>): bool
    requires Ranked(h, rank)
    decreases Height(id, rank)
  {
    if id.None? then false
    else if id.value in idSet then true
    else ContainsItemOrAncestor(idSet, GetParentId(h, id.value), h, rank)
  }

  /** The `k`-th element of the parent chain of `id` (0 is `id` itself). */
  function AncestorAt(h: Hierarchy, id: Option<ObjectId>, k: nat): Option<ObjectId>
    decreases k
  {
    if k == 0 || id.None? then id else AncestorAt(h, GetParentId(h, id.value), k - 1)
  }

  ghost predicate HasAncestorIn(idSet: set<ObjectId>, h: Hierarchy, id: Option<ObjectId>) {
    exists k: nat :: AncestorAt(h, id, k).Some? && AncestorAt(h, id, k).value in idSet
  }

  /** The walk answers true exactly when the id or one of its ancestors is in
      the set; None is in no set. */
  lemma {:induction false} ContainsIffAncestorInSet(idSet: set<ObjectId>, id: Option<ObjectId>, h: Hierarchy, rank: map<ObjectId, nat>)
    requires Ranked(h, rank)
    ensures ContainsItemOrAncestor(idSet, id, h, rank) <==> HasAncestorIn(idSet, h, id)
    ensures id.None? ==> !ContainsItemOrAncestor(idSet, id, h, rank)
    decreases Height(id, rank)
  {
    if id.None? {
      forall k: nat ensures AncestorAt(h, id, k).None? {
        if k > 0 {
          assert AncestorAt(h, id, k) == id;
        }
      }
    } else if id.value in idSet {
      assert AncestorAt(h, id, 0) == id;
    } else {
      var p := GetParentId(h, id.value);
      ContainsIffAncestorInSet(idSet, p, h, rank);
      if HasAncestorIn(idSet, h, p) {
        var k: nat :| AncestorAt(h, p, k).Some? && AncestorAt(h, p, k).value in idSet;
        assert AncestorAt(h, id, k + 1) == AncestorAt(h, p, k);
      }
      if HasAncestorIn(idSet, h, id) {
        var k: nat :| AncestorAt(h, id, k).Some? && AncestorAt(h, id, k).value in idSet;
        assert k != 0;
        assert AncestorAt(h, id, k) == AncestorAt(h, p, k - 1);
      }
    }
  }

  /** The ids of a session's dataSet. */
  function IdSet(dataSet: seq<DataSetEntry>): (s: set<ObjectId>)
    ensures forall x :: x in s <==> exists e :: e in dataSet && e.itemId == x
  {
    set e | e in dataSet :: e.itemId
  }

  /** `containsItem`: is the object visible through the session's mounts? A
      session without a dataSet cannot be iterated. */
  function ContainsItem(session: SessionDoc, objectId: ObjectId, h: Hierarchy, ghost rank: map<ObjectId, nat>): (r: Result<bool>)
    requires Ranked(h, rank)
    ensures session.dataSet.None? <==> r.Err?
    ensures r.Ok? ==> (r.value <==> HasAncestorIn(IdSet(session.dataSet.value), h, Some(objectId)))
  {
    match session.dataSet
    case None => Err(TypeError("'NoneType' object is not iterable"))
    case Some(ds) =>
      ContainsIffAncestorInSet(IdSet(ds), Some(objectId), h, rank);
      Ok(ContainsItemOrAncestor(IdSet(ds), Some(objectId), h, rank))
  }

  // ---------------------------------------------------------------------------
  // Path resolution

  /** The mount path with a '/' appended unless it already ends in one. */
  function Slashed(mountPath: string): (r: string)
    requires mountPath != ""
    ensures |r| > 0 && r[|r| - 1] == '/' && mountPath <= r && |r| <= |mountPath| + 1
  {
    if mountPath[|mountPath| - 1] != '/' then mountPath + "/" else mountPath
  }

  /** The entry serves the path: an exact match, or a prefix match on the
      slashed mount path. */
  predicate Matches(e: DataSetEntry, path: string) {
    path == e.mountPath || (e.mountPath != "" && Slashed(e.mountPath) <= path)
  }

  /** The scan stops at this entry: it matches, or its empty mount path makes
      `rootPath[-1]` raise IndexError. */
  predicate Stops(e: DataSetEntry, path: string) {
    Matches(e, path) || e.mountPath == ""
  }

  /** What is left of the path below the mount: None for an exact match. */
  function TailOf(e: DataSetEntry, path: string): Option<string>
    requires Matches(e, path)
  {
    if path == e.mountPath then None else Some(path[|Slashed(e.mountPath)|..])
  }

  /** The index of the first entry the scan stops at, or |dataSet|. */
  function FirstStop(dataSet: seq<DataSetEntry>, path: string): (i: nat)
    ensures i <= |dataSet|
    ensures forall j :: 0 <= j < i ==> !Stops(dataSet[j], path)
    ensures i < |dataSet| ==> Stops(dataSet[i], path)
    decreases |dataSet|
  {
    if dataSet == [] then 0
    else if Stops(dataSet[0], path) then 0
    else 1 + FirstStop(dataSet[1..], path)
  }

  ghost predicate FirstMatchAt(dataSet: seq<DataSetEntry>, path: string, i: int) {
    && 0 <= i < |dataSet|
    && Matches(dataSet[i], path)
    && forall j :: 0 <= j < i ==> !Stops(dataSet[j], path)
  }

  /** The scan of `findRootContainer`, up to loading the object: the tail and
      id of the first entry that serves the path. */
  function FindRoot(dataSet: seq<DataSetEntry>, path: string): (r: Result<(Option<string>, ObjectId)>)
    ensures r.Ok? ==> exists i :: FirstMatchAt(dataSet, path, i) && r.value == (TailOf(dataSet[i], path), dataSet[i].itemId)
    ensures r == Err(LookupError("No such object: " + path)) <==> forall j :: 0 <= j < |dataSet| ==> !Stops(dataSet[j], path)
    ensures r.Err? ==> r.error == IndexError || r.error == LookupError("No such object: " + path)
  {
    var i := FirstStop(dataSet, path);
    if i == |dataSet| then Err(LookupError("No such object: " + path))
    else if !Matches(dataSet[i], path) then Err(IndexError)
    else
      assert FirstMatchAt(dataSet, path, i);
      Ok((TailOf(dataSet[i], path), dataSet[i].itemId))
  }

  /** A tail is what follows the slashed mount path. */
  lemma TailRebuildsPath(e: DataSetEntry, path: string)
    requires Matches(e, path) && path != e.mountPath
    ensures e.mountPath != "" && Slashed(e.mountPath) + TailOf(e, path).value == path
  {
    assert path[..|Slashed(e.mountPath)|] == Slashed(e.mountPath);
  }

  /** A mount at "/name" does not serve "/nameAndStuff": the character after
      the mount path must be '/'. */
  lemma NoPartialNameMatch(e: DataSetEntry, c: char, rest: string)
    requires e.mountPath != "" && e.mountPath[|e.mountPath| - 1] != '/' && c != '/'
    ensures !Matches(e, e.mountPath + [c] + rest)
  {
    var path := e.mountPath + [c] + rest;
    assert path[|e.mountPath|] == c;
    assert Slashed(e.mountPath)[|e.mountPath|] == '/';
  }

  /** An exact match of the first entry gives (None, its id). */
  lemma ExactMountFirst(dataSet: seq<DataSetEntry>, path: string)
    requires dataSet != [] && dataSet[0].mountPath == path
    ensures FindRoot(dataSet, path) == Ok((None, dataSet[0].itemId))
  {
  }

  /** `loadObject`: a folder if there is one with the id, else an item. */
  function LoadObject(h: Hierarchy, id: ObjectId): (r: Result<Obj>)
    ensures id in h.folderParent ==> r == Ok(Obj(id, Folder))
    ensures id !in h.folderParent && id in h.itemFolder ==> r == Ok(Obj(id, File))
    ensures id !in h.folderParent && id !in h.itemFolder ==> r == Err(LookupError("No such object: " + id))
  {
    if id in h.folderParent then Ok(Obj(id, Folder))
    else if id in h.itemFolder then Ok(Obj(id, File))
    else Err(LookupError("No such object: " + id))
  }

  /** `findRootContainer`. */
  function FindRootContainer(session: SessionDoc, path: string, h: Hierarchy): (r: Result<(Option<string>, Obj)>)
    ensures session.dataSet.None? ==> r.Err? && r.error.TypeError?
    ensures session.dataSet.Some? && FindRoot(session.dataSet.value, path).Err? ==>
      r == Err(FindRoot(session.dataSet.value, path).error)
    ensures session.dataSet.Some? && FindRoot(session.dataSet.value, path).Ok? ==>
      var (tail, id) := FindRoot(session.dataSet.value, path).value;
      (r.Ok? <==> LoadObject(h, id).Ok?) && (r.Ok? ==> r.value == (tail, LoadObject(h, id).value))
  {
    match session.dataSet
    case None => Err(TypeError("'NoneType' object is not iterable"))
    case Some(ds) =>
      match FindRoot(ds, path)
      case Err(e) => Err(e)
      case Ok((tail, id)) =>
        match LoadObject(h, id)
        case Err(e) => Err(e)
        case Ok(obj) => Ok((tail, obj))
  }

  /** `findObjectInFolder`: a child folder with the name is preferred to a
      child item with it. */
  function FindObjectInFolder(h: Hierarchy, container: Obj, name: string): (r: Result<Obj>)
    ensures (container.id, name) in h.folderNamed ==> r == Ok(Obj(h.folderNamed[(container.id, name)], Folder))
    ensures (container.id, name) !in h.folderNamed && (container.id, name) in h.itemNamed ==>
      r == Ok(Obj(h.itemNamed[(container.id, name)], File))
    ensures (container.id, name) !in h.folderNamed && (container.id, name) !in h.itemNamed ==>
      r == Err(LookupError("No such object: " + name))
  {
    if (container.id, name) in h.folderNamed then Ok(Obj(h.folderNamed[(container.id, name)], Folder))
    else if (container.id, name) in h.itemNamed then Ok(Obj(h.itemNamed[(container.id, name)], File))
    else Err(LookupError("No such object: " + name))
  }

  /** The object reached by following the names one after another from `start`. */
  function WalkSpec(h: Hierarchy, start: Obj, names: seq<string>): Result<Obj>
    decreases |names|
  {
    if names == [] then Ok(start)
    else
      match FindObjectInFolder(h, start, names[0])
      case Err(e) => Err(e)
      case Ok(next) => WalkSpec(h, next, names[1..])
  }

  /** Walking a path in two parts is walking the first part, then the second
      from where the first ended. */
  lemma {:induction false} WalkAppend(h: Hierarchy, start: Obj, a: seq<string>, b: seq<string>)
    ensures WalkSpec(h, start, a + b) ==
      match WalkSpec(h, start, a)
      case Err(e) => Err(e)
      case Ok(mid) => WalkSpec(h, mid, b)
    decreases |a|
  {
    if a == [] {
      assert a + b == b;
    } else {
      assert (a + b)[0] == a[0] && (a + b)[1..] == a[1..] + b;
      var step := FindObjectInFolder(h, start, a[0]);
      if step.Ok? {
        WalkAppend(h, step.value, a[1..], b);
      }
    }
  }

  /** The walk of `getObject`: one `findObjectInFolder` per component. */
  method Walk(h: Hierarchy, start: Obj, names: seq<string>) returns (r: Result<Obj>)
    ensures r == WalkSpec(h, start, names)
  {
    var crt := start;
    for i := 0 to |names|
      invariant WalkSpec(h, start, names) == WalkSpec(h, crt, names[i..])
    {
      assert names[i..][0] == names[i] && names[i..][1..] == names[i + 1..];
      var next := FindObjectInFolder(h, crt, names[i]);
      if next.Err? {
        return Err(next.error);
      }
      crt := next.value;
    }
    assert names[|names|..] == [];
    return Ok(crt);
  }

  // ---------------------------------------------------------------------------
  // splitPath

  predicate AllSlashes(s: string) {
    forall k :: 0 <= k < |s| ==> s[k] == '/'
  }

  predicate NoSlash(s: string) {
    forall k :: 0 <= k < |s| ==> s[k] != '/'
  }

  /** `str.rfind('/')`. */
  function LastSlash(s: string): (r: int)
    ensures -1 <= r < |s|
    ensures r >= 0 ==> s[r] == '/'
    ensures forall k :: r < k < |s| ==> s[k] != '/'
    decreases |s|
  {
    if s == [] then -1
    else if s[|s| - 1] == '/' then |s| - 1
    else LastSlash(s[..|s| - 1])
  }

  /** `str.rstrip('/')`. */
  function RStripSlashes(s: string): (r: string)
    ensures r <= s && AllSlashes(s[|r|..])
    ensures r == [] || r[|r| - 1] != '/'
    decreases |s|
  {
    if s != [] && s[|s| - 1] == '/' then RStripSlashes(s[..|s| - 1]) else s
  }

  /** POSIX `os.path.split`: the tail is what follows the last '/', the head
      what precedes it, with trailing slashes stripped unless the head is only
      slashes. */
  function PathSplit(p: string): (r: (string, string))
    ensures |r.0| + |r.1| <= |p| && r.0 <= p
    ensures AllSlashes(p) ==> r == (p, "")
    ensures !AllSlashes(p) ==> |r.0| < |p|
  {
    var i := LastSlash(p) + 1;
    var head := p[..i];
    var tail := p[i..];
    assert AllSlashes(p) ==> head == p by {
      if AllSlashes(p) && |p| > 0 {
        assert p[|p| - 1] == '/';
      }
    }
    if head != "" && !AllSlashes(head) then
      var stripped := RStripSlashes(head);
      assert |stripped| < |p| by {
        if tail == "" {
          assert head == p && head[|head| - 1] == '/';
        }
      }
      (stripped, tail)
    else
      assert |head| < |p| || AllSlashes(p) by {
        if |head| == |p| && head != "" {
          assert head == p;
        }
      }
      (head, tail)
  }

  /** The parts of a split: the tail is the slash-free end of the path, only
      slashes lie between head and tail, and the head keeps no trailing slash
      unless it is nothing but slashes. */
  lemma PathSplitShape(p: string)
    ensures var (head, tail) := PathSplit(p);
      && NoSlash(tail) && tail == p[|p| - |tail|..]
      && AllSlashes(p[|head|..|p| - |tail|])
      && (head == "" || head[|head| - 1] != '/' || AllSlashes(head))
  {
    var i := LastSlash(p) + 1;
    var head := p[..i];
    if head != "" && !AllSlashes(head) {
      var stripped := RStripSlashes(head);
      assert p[|stripped|..|p| - |p[i..]|] == head[|stripped|..];
    }
  }

  /** The components `splitPath` collects: the tails of repeated splits,
      outermost last, until only slashes are left. */
  function Components(p: string): seq<string>
    decreases |p|
  {
    if AllSlashes(p) then [] else Components(PathSplit(p).0) + [PathSplit(p).1]
  }

  /** Components joined with single '/'s. */
  function Joined(cs: seq<string>): string
    decreases |cs|
  {
    if cs == [] then ""
    else if |cs| == 1 then cs[0]
    else Joined(cs[..|cs| - 1]) + "/" + cs[|cs| - 1]
  }

  lemma {:induction false} JoinedLastNotSlash(cs: seq<string>)
    requires cs != [] && forall k :: 0 <= k < |cs| ==> cs[k] != "" && NoSlash(cs[k])
    ensures Joined(cs) != "" && Joined(cs)[|Joined(cs)| - 1] != '/'
    ensures !AllSlashes(Joined(cs))
    decreases |cs|
  {
    var c := cs[|cs| - 1];
    assert Joined(cs)[|Joined(cs)| - 1] == c[|c| - 1];
  }

  /** Splitting one component, after at most one leading '/'. */
  lemma SplitSingle(lead: string, c: string)
    requires lead == "" || lead == "/"
    requires c != "" && NoSlash(c)
    ensures PathSplit(lead + c) == (lead, c)
  {
    var p := lead + c;
    assert LastSlash(p) == |lead| - 1 by {
      if lead == "/" {
        assert p[0] == '/';
      }
    }
    assert p[..|lead|] == lead && p[|lead|..] == c;
  }

  /** Splitting off the last component after a single '/'. */
  lemma SplitLast(q: string, c: string)
    requires q != "" && q[|q| - 1] != '/'
    requires c != "" && NoSlash(c)
    ensures PathSplit(q + "/" + c) == (q, c)
  {
    var p := q + "/" + c;
    assert LastSlash(p) == |q| by {
      assert p[|q|] == '/';
    }
    assert p[..|q| + 1] == q + "/";
    assert p[|q| + 1..] == c;
    assert !AllSlashes(q + "/") by {
      assert (q + "/")[|q| - 1] != '/';
    }
    assert RStripSlashes(q + "/") == q by {
      assert (q + "/")[..|q|] == q;
    }
  }

  /** For a path made of non-empty components without '/', separated by
      single '/'s and with or without one leading '/', the components are
      exactly those. */
  lemma {:induction false} ComponentsOfJoined(lead: string, cs: seq<string>)
    requires lead == "" || lead == "/"
    requires forall k :: 0 <= k < |cs| ==> cs[k] != "" && NoSlash(cs[k])
    ensures Components(lead + Joined(cs)) == cs
    decreases |cs|
  {
    if cs == [] {
      assert lead + Joined(cs) == lead;
    } else {
      var c := cs[|cs| - 1];
      var p := lead + Joined(cs);
      assert !AllSlashes(p) by {
        assert p[|p| - 1] == c[|c| - 1];
      }
      if |cs| == 1 {
        assert p == lead + c;
        SplitSingle(lead, c);
        assert Components(lead) == [];
        assert cs == [c];
      } else {
        var front := cs[..|cs| - 1];
        assert cs == front + [c];
        var q := lead + Joined(front);
        JoinedLastNotSlash(front);
        assert q[|q| - 1] == Joined(front)[|Joined(front)| - 1];
        assert p == q + "/" + c;
        SplitLast(q, c);
        ComponentsOfJoined(lead, front);
      }
    }
  }

  /** One split moves one component from the path to the front of `r`. */
  lemma {:induction false} ComponentsStep(p: string, r: seq<string>)
    requires !AllSlashes(p)
    ensures Components(p) + r == Components(PathSplit(p).0) + ([PathSplit(p).1] + r)
  {
    assert Components(p) == Components(PathSplit(p).0) + [PathSplit(p).1];
  }

  predicate StartsWithDoubleSlash(p: string) {
    |p| >= 2 && p[0] == '/' && p[1] == '/'
  }

  /** The loop of `splitPath` as written stops only at "" and "/". A path of
      two or more slashes splits into itself and an empty tail, so from such a
      path the loop never ends; a tail such as "//x" reaches one. */
  lemma SplitLoopStalls(p: string)
    requires |p| >= 2 && AllSlashes(p)
    ensures p != "" && p != "/" && PathSplit(p) == (p, "")
  {
    assert p[1] == '/';
  }

  /** Away from a leading "//", the loop test of the code and the all-slashes
      test of the corrected loop agree. */
  lemma StopTestsAgree(p: string)
    requires !StartsWithDoubleSlash(p)
    ensures AllSlashes(p) <==> p == "" || p == "/"
  {
    if |p| >= 2 {
      assert p[0] != '/' || p[1] != '/';
    }
  }

  /** `splitPath` as written: loop while the path is neither "" nor "/". It
      terminates only on paths that do not start with "//". */
  method SplitPathAsWritten(path: string) returns (r: seq<string>)
    requires !StartsWithDoubleSlash(path)
    ensures r == Components(path)
  {
    var p := path;
    r := [];
    while p != "" && p != "/"
      invariant p <= path
      invariant Components(path) == Components(p) + r
      decreases |p|
    {
      StopTestsAgree(p);
      var split := PathSplit(p);
      ComponentsStep(p, r);
      p, r := split.0, [split.1] + r;
    }
    StopTestsAgree(p);
    assert Components(p) == [];
  }

  /** `splitPath` with the loop stopping once only slashes are left, which
      ends on every path and agrees with the code wherever the code ends. */
  method SplitPath(path: string) returns (r: seq<string>)
    ensures r == Components(path)
  {
    var p := path;
    r := [];
    while !AllSlashes(p)
      invariant Components(path) == Components(p) + r
      decreases |p|
    {
      var split := PathSplit(p);
      ComponentsStep(p, r);
      p, r := split.0, [split.1] + r;
    }
    assert Components(p) == [];
  }

  // ---------------------------------------------------------------------------
  // getObject

  /** What `getObject` resolves: ownership, then the root container, then a
      walk down the components of the tail. */
  function GetObjectSpec(user: User, session: SessionDoc, path: string, h: Hierarchy): Result<Obj> {
    match CheckOwnership(user, session)
    case Err(e) => Err(e)
    case Ok(_) =>
      match FindRootContainer(session, path, h)
      case Err(e) => Err(e)
      case Ok((tail, root)) =>
        if tail.None? then Ok(root) else WalkSpec(h, root, Components(tail.value))
  }

  /** A path below a mount resolves by walking its components from the mount. */
  lemma MountedPathWalks(user: User, session: SessionDoc, h: Hierarchy, cs: seq<string>)
    requires user.admin && session.dataSet.Some? && |session.dataSet.value| >= 1
    requires session.dataSet.value[0].mountPath == "/data"
    requires session.dataSet.value[0].itemId in h.folderParent
    requires forall k :: 0 <= k < |cs| ==> cs[k] != "" && NoSlash(cs[k])
    ensures GetObjectSpec(user, session, "/data/" + Joined(cs), h) ==
      WalkSpec(h, Obj(session.dataSet.value[0].itemId, Folder), cs)
  {
    var ds := session.dataSet.value;
    var path := "/data/" + Joined(cs);
    assert Slashed("/data") == "/data/";
    assert Matches(ds[0], path);
    assert FirstStop(ds, path) == 0;
    assert |path| == 6 + |Joined(cs)|;
    assert path[6..] == "" + Joined(cs);
    ComponentsOfJoined("", cs);
  }

  /** `getObject` without the child listing. */
  method GetObject(user: User, session: SessionDoc, path: string, h: Hierarchy) returns (r: Result<Obj>)
    ensures r == GetObjectSpec(user, session, path, h)
  {
    var check := CheckOwnership(user, session);
    if check.Err? {
      return Err(check.error);
    }
    var found := FindRootContainer(session, path, h);
    if found.Err? {
      return Err(found.error);
    }
    var (tail, root) := found.value;
    if tail.None? {
      return Ok(root);
    }
    var names := SplitPath(tail.value);
    r := Walk(h, root, names);
  }
}
