/** The project store of the project-management service: a table of projects
    keyed by id, with the five repository operations. The database behind it
    is an in-memory map, and each asynchronous call runs to completion before
    the next starts. */
module Projects {
  import opened Utils

  /** A `Guid`. Ids are drawn from an unbounded space, so an unused one always
      exists. */
  type Guid = nat

  datatype Document = Document(id: Guid, fileName: string, projectId: Guid)

  datatype Project = Project(id: Guid, name: string, description: string, documents: seq<Document>)

  /** A project with the defaults of its constructor. */
  function NewProject(): (p: Project)
    ensures p.name == "" && p.description == "" && p.documents == []
  {
    Project(0, "", "", [])
  }

  // ----- the table and its transitions -----

  /** Every stored project is filed under its own id. */
  predicate KeyedById(t: map<Guid, Project>) {
    forall id :: id in t ==> t[id].id == id
  }

  /** The table after `AddAsync` stores `p` under the fresh id `id`. */
  function Inserted(t: map<Guid, Project>, id: Guid, p: Project): (r: map<Guid, Project>)
    requires id !in t
    ensures r.Keys == t.Keys + {id}
    ensures r[id] == p.(id := id)
    ensures forall k :: k in t ==> r[k] == t[k]
  {
    t[id := p.(id := id)]
  }

  /** The table after `UpdateAsync(p)`: the entry under `p.id`, if any, takes
      `p`'s name and description; nothing else changes. */
  function Updated(t: map<Guid, Project>, p: Project): (r: map<Guid, Project>)
    ensures r.Keys == t.Keys
    ensures forall k :: k in t && k != p.id ==> r[k] == t[k]
    ensures forall k :: k in t ==> r[k].id == t[k].id && r[k].documents == t[k].documents
    ensures p.id in t ==> r[p.id].name == p.name && r[p.id].description == p.description
  {
    if p.id in t then t[p.id := t[p.id].(name := p.name, description := p.description)] else t
  }

  /** The table after `RemoveAsync(id)`. */
  function Removed(t: map<Guid, Project>, id: Guid): (r: map<Guid, Project>)
    ensures r.Keys == t.Keys - {id}
    ensures forall k :: k in r ==> r[k] == t[k]
  {
    t - {id}
  }

  lemma InsertKeepsKeying(t: map<Guid, Project>, id: Guid, p: Project)
    requires KeyedById(t) && id !in t
    ensures KeyedById(Inserted(t, id, p))
  {
  }

  lemma UpdateKeepsKeying(t: map<Guid, Project>, p: Project)
    requires KeyedById(t)
    ensures KeyedById(Updated(t, p))
  {
  }

  /** Updating a missing id changes nothing. */
  lemma UpdateMissingIsIdentity(t: map<Guid, Project>, p: Project)
    requires p.id !in t
    ensures Updated(t, p) == t
  {
  }

  /** Updating twice with the same project is updating once. */
  lemma UpdateIdempotent(t: map<Guid, Project>, p: Project)
    ensures Updated(Updated(t, p), p) == Updated(t, p)
  {
  }

  /** Updating with the stored project itself changes nothing. */
  lemma UpdateWithStoredIsIdentity(t: map<Guid, Project>, id: Guid)
    requires id in t && KeyedById(t)
    ensures Updated(t, t[id]) == t
  {
    assert t[id].(name := t[id].name, description := t[id].description) == t[id];
  }

  /** Removing what was just added gives back the table. */
  lemma RemoveUndoesInsert(t: map<Guid, Project>, id: Guid, p: Project)
    requires id !in t
    ensures Removed(Inserted(t, id, p), id) == t
  {
  }

  /** Removing a missing id changes nothing. */
  lemma RemoveMissingIsIdentity(t: map<Guid, Project>, id: Guid)
    requires id !in t
    ensures Removed(t, id) == t
  {
  }

  /** A number above every element of a finite set of ids. */
  ghost function Above(ids: set<Guid>): (r: Guid)
    ensures forall x :: x in ids ==> x < r
    decreases |ids|
  {
    if ids == {} then 0
    else
      var x :| x in ids;
      var b := Above(ids - {x});
      assert forall y :: y in ids ==> y == x || y in ids - {x};
      if x < b then b else x + 1
  }

  lemma FreshIdExists(ids: set<Guid>)
    ensures exists id: Guid :: id !in ids
  {
    var b := Above(ids);
    assert b !in ids;
  }

  /** `ProjectRepository`: the `Projects` table of the database context. */
  class ProjectRepository {
    var projects: map<Guid, Project>

    ghost predicate Valid()
      reads this
    {
      KeyedById(projects)
    }

    constructor ()
      ensures Valid() && projects == map[]
    {
      projects := map[];
    }

    /** `GetAllAsync`: every stored project once, in some order. */
    method GetAll() returns (all: seq<Project>)
      requires Valid()
      ensures |all| == |projects|
      ensures forall i :: 0 <= i < |all| ==> all[i].id in projects && projects[all[i].id] == all[i]
      ensures forall id :: id in projects ==> projects[id] in all
      ensures forall i, j :: 0 <= i < j < |all| ==> all[i].id != all[j].id
    {
      all := [];
      var left := projects.Keys;
      while left != {}
        invariant left <= projects.Keys
        invariant |all| + |left| == |projects|
        invariant forall i :: 0 <= i < |all| ==> all[i].id in projects - left && projects[all[i].id] == all[i]
        invariant forall id :: id in projects && id !in left ==> projects[id] in all
        invariant forall i, j :: 0 <= i < j < |all| ==> all[i].id != all[j].id
        decreases |left|
      {
        var id :| id in left;
        all := all + [projects[id]];
        left := left - {id};
      }
    }

    /** `GetByIdAsync`: the project with that id, or nothing. */
    function GetById(id: Guid): (r: Option<Project>)
      reads this
      requires Valid()
      ensures r.Some? <==> exists p :: p in projects.Values && p.id == id
      ensures r.Some? ==> r.value in projects.Values && r.value.id == id
    {
      if id in projects then Some(projects[id]) else None
    }

    /** `AddAsync`: the project is given a new id, one no stored project has,
        and stored; the stored project is returned. */
    method Add(project: Project) returns (added: Project)
      requires Valid()
      modifies this
      ensures Valid()
      ensures added.id !in old(projects)
      ensures added == project.(id := added.id)
      ensures projects == Inserted(old(projects), added.id, project)
    {
      FreshIdExists(projects.Keys);
      var id :| id !in projects.Keys;
      added := project.(id := id);
      InsertKeepsKeying(projects, id, project);
      projects := projects[id := added];
    }

    /** `UpdateAsync`: missing ids give nothing; otherwise the stored project
        takes the new name and description and is returned. */
    method Update(project: Project) returns (r: Option<Project>)
      requires Valid()
      modifies this
      ensures Valid()
      ensures r.None? <==> project.id !in old(projects)
      ensures projects == Updated(old(projects), project)
      ensures r.Some? ==> r.value == projects[project.id]
    {
      if project.id !in projects {
        return None;
      }
      var existing := projects[project.id];
      existing := existing.(name := project.name, description := project.description);
      UpdateKeepsKeying(projects, project);
      projects := projects[project.id := existing];
      r := Some(existing);
    }

    /** `RemoveAsync`: reports whether the id was stored, and deletes it. */
    method Remove(id: Guid) returns (removed: bool)
      requires Valid()
      modifies this
      ensures Valid()
      ensures removed <==> id in old(projects)
      ensures projects == Removed(old(projects), id)
    {
      if id !in projects {
        return false;
      }
      projects := projects - {id};
      removed := true;
    }
  }
}
