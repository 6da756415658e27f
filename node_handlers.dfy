/**
 * The decisions shared by the department, project and vendor handlers,
 * which differ only in the table they act on and in the length of the
 * chain from that table to the owning budget. None of them sends an event.
 */
module NodeHandlers {
  import opened Wrappers
  import Http
  import opened Hierarchy
  import opened Persistence

  /**
   * `create<Node>`: name and parent id are required (400); a parent that is
   * missing or owned by someone else is refused alike with 403.
   */
  function CreateChildReply(db: Db, user: UserId, kind: Kind, name: Option<string>, parent: Option<Id>, newId: Id): (r: Reply)
    requires IsChildKind(kind)
    ensures r.status == Http.Created
        <==> Http.Given(name) && Http.GivenId(parent) && OwnerOf(db, ParentKind(kind), parent.value) == Some(user)
    ensures r.status != Http.Created ==> r.db == db
    ensures r.status == Http.Created ==> Present(r.db, kind, newId) && r.db.budgets == db.budgets && r.db.transactions == db.transactions
    ensures r.events == []
  {
    if !Http.Given(name) || !Http.GivenId(parent) then Reply(Http.BadRequest, db, [])
    else if OwnerOf(db, ParentKind(kind), parent.value) != Some(user) then Reply(Http.Forbidden, db, [])
    else Reply(Http.Created, AddChild(db, kind, newId, name.value, parent.value), [])
  }

  /** `update<Node>`: the name is checked before the lookup; then 404 before 403. */
  function UpdateNameReply(db: Db, user: UserId, kind: Kind, id: Id, name: Option<string>): (r: Reply)
    requires IsChildKind(kind)
    ensures r.status == Http.OK <==> Http.Given(name) && OwnerOf(db, kind, id) == Some(user)
    ensures r.status != Http.OK ==> r.db == db
    ensures r.db.budgets == db.budgets && r.db.transactions == db.transactions
    ensures r.db.departments.Keys == db.departments.Keys && r.db.projects.Keys == db.projects.Keys
        && r.db.vendors.Keys == db.vendors.Keys
    ensures r.events == []
  {
    if !Http.Given(name) then Reply(Http.BadRequest, db, [])
    else match Authorize(db, user, kind, id)
      case NotFound => Reply(Http.NotFound, db, [])
      case Forbidden => Reply(Http.Forbidden, db, [])
      case Allow => Reply(Http.OK, Rename(db, kind, id, name.value), [])
  }

  /** `delete<Node>`: 404 before 403; a node that still has children makes the delete throw (500). */
  function DeleteNodeReply(db: Db, user: UserId, kind: Kind, id: Id): (r: Reply)
    ensures r.status == Http.NoContent <==> OwnerOf(db, kind, id) == Some(user) && !HasChildren(db, kind, id)
    ensures r.status != Http.NoContent ==> r.db == db
    ensures r.status == Http.NoContent ==> !Present(r.db, kind, id)
    ensures r.events == []
  {
    match Authorize(db, user, kind, id)
    case NotFound => Reply(Http.NotFound, db, [])
    case Forbidden => Reply(Http.Forbidden, db, [])
    case Allow =>
      if HasChildren(db, kind, id) then Reply(Http.ServerError, db, [])
      else Reply(Http.NoContent, Delete(db, kind, id), [])
  }

  /** Creation never answers 404: a missing parent is refused as forbidden. */
  lemma CreateChildPrecedence(db: Db, user: UserId, kind: Kind, name: Option<string>, parent: Option<Id>, newId: Id)
    requires Linked(db) && IsChildKind(kind)
    ensures var r := CreateChildReply(db, user, kind, name, parent, newId);
      && (r.status == Http.BadRequest <==> !Http.Given(name) || !Http.GivenId(parent))
      && (r.status == Http.Forbidden <==>
            (Http.Given(name) && Http.GivenId(parent)
             && (!Present(db, ParentKind(kind), parent.value) || OwnerOf(db, ParentKind(kind), parent.value).value != user)))
      && (r.status == Http.Created <==>
            (Http.Given(name) && Http.GivenId(parent) && Authorize(db, user, ParentKind(kind), parent.value) == Allow))
      && r.status != Http.NotFound
      && (r.status != Http.Created ==> r.db == db)
      && r.events == []
  {
    if Http.Given(name) && Http.GivenId(parent) {
      LinkedNodesHaveOwners(db, ParentKind(kind), parent.value);
    }
  }

  /** A created node sits under the named parent, belongs to the caller, and nothing of anyone else changes. */
  lemma CreateChildOwnedByCaller(db: Db, user: UserId, kind: Kind, name: Option<string>, parent: Option<Id>, newId: Id)
    requires Linked(db) && IsChildKind(kind) && !Present(db, kind, newId)
    requires CreateChildReply(db, user, kind, name, parent, newId).status == Http.Created
    ensures var r := CreateChildReply(db, user, kind, name, parent, newId);
      && Present(r.db, kind, newId)
      && (forall k, x :: Present(db, k, x) ==> Present(r.db, k, x))
      && (forall k, x :: Present(r.db, k, x) && !Present(db, k, x) ==> k == kind && x == newId)
      && OwnerOf(r.db, kind, newId) == Some(user)
      && Linked(r.db)
      && ForeignView(r.db, user) == ForeignView(db, user)
  {
    AddChildIsolated(db, user, kind, newId, name.value, parent.value);
  }

  lemma UpdateNamePrecedence(db: Db, user: UserId, kind: Kind, id: Id, name: Option<string>)
    requires Linked(db) && IsChildKind(kind)
    ensures var r := UpdateNameReply(db, user, kind, id, name);
      && (r.status == Http.BadRequest <==> !Http.Given(name))
      && (r.status == Http.NotFound <==> Http.Given(name) && !Present(db, kind, id))
      && (r.status == Http.Forbidden <==> Http.Given(name) && Present(db, kind, id) && OwnerOf(db, kind, id).value != user)
      && (r.status == Http.OK <==> Http.Given(name) && OwnerOf(db, kind, id) == Some(user))
      && (r.status != Http.OK ==> r.db == db)
      && r.events == []
  {
    LinkedNodesHaveOwners(db, kind, id);
  }

  /** A successful rename keeps every row, every link and every owner; only the node's name differs. */
  lemma UpdateNameChangesOnlyName(db: Db, user: UserId, kind: Kind, id: Id, name: Option<string>)
    requires Linked(db) && IsChildKind(kind) && UpdateNameReply(db, user, kind, id, name).status == Http.OK
    ensures var r := UpdateNameReply(db, user, kind, id, name);
      && r.db == Rename(db, kind, id, name.value)
      && (forall k, x :: Present(r.db, k, x) == Present(db, k, x) && OwnerOf(r.db, k, x) == OwnerOf(db, k, x))
      && Linked(r.db)
      && ForeignView(r.db, user) == ForeignView(db, user)
  {
    forall k, x ensures Present(Rename(db, kind, id, name.value), k, x) == Present(db, k, x)
      && OwnerOf(Rename(db, kind, id, name.value), k, x) == OwnerOf(db, k, x)
    {
      RenameKeepsOwners(db, kind, id, name.value, k, x);
    }
    RenameIsolated(db, user, kind, id, name.value);
  }

  lemma DeleteNodePrecedence(db: Db, user: UserId, kind: Kind, id: Id)
    requires Linked(db)
    ensures var r := DeleteNodeReply(db, user, kind, id);
      && (r.status == Http.NotFound <==> !Present(db, kind, id))
      && (r.status == Http.Forbidden <==> Present(db, kind, id) && OwnerOf(db, kind, id).value != user)
      && (r.status == Http.ServerError <==> OwnerOf(db, kind, id) == Some(user) && HasChildren(db, kind, id))
      && (r.status == Http.NoContent <==> OwnerOf(db, kind, id) == Some(user) && !HasChildren(db, kind, id))
      && (r.status != Http.NoContent ==> r.db == db)
      && r.events == []
  {
    LinkedNodesHaveOwners(db, kind, id);
  }

  /** A successful delete removes that one node and nothing else. */
  lemma DeleteNodeRemovesOnlyIt(db: Db, user: UserId, kind: Kind, id: Id)
    requires Linked(db) && DeleteNodeReply(db, user, kind, id).status == Http.NoContent
    ensures var r := DeleteNodeReply(db, user, kind, id);
      && !Present(r.db, kind, id)
      && (forall k, x :: Present(r.db, k, x) <==> Present(db, k, x) && (k, x) != (kind, id))
      && Linked(r.db)
      && ForeignView(r.db, user) == ForeignView(db, user)
  {
    DeleteKeepsLinks(db, kind, id);
    DeleteIsolated(db, user, kind, id);
  }
}
