/**
 * The sample project routes: a module-level list that starts with three
 * projects and grows by one on every POST. The body fields are whatever the
 * request carried (`None` for `undefined`); nothing is validated.
 */
module ProjectRoutes {
  import opened Wrappers
  import opened Text
  import Http

  datatype SampleProject = SampleProject(id: string, name: Option<string>, departmentId: Option<string>)

  /** The list as the module defines it. */
  const Initial: seq<SampleProject> := [
    SampleProject("1", Some("School Infrastructure"), Some("1")),
    SampleProject("2", Some("Medical Equipment"), Some("2")),
    SampleProject("3", Some("Road Construction"), Some("3"))
  ]

  /** The project at position i has id i + 1, written in decimal. */
  predicate IdsByPosition(projects: seq<SampleProject>) {
    forall i :: 0 <= i < |projects| ==> projects[i].id == NatToString(i + 1)
  }

  /** The list starts with ids "1", "2" and "3", in that order. */
  lemma InitialIdsByPosition()
    ensures |Initial| == 3 && IdsByPosition(Initial)
    ensures Initial[0].id == "1" && Initial[1].id == "2" && Initial[2].id == "3"
  {
    assert NatToString(1) == "1" && NatToString(2) == "2" && NatToString(3) == "3";
  }

  /** Ids given by position are pairwise distinct. */
  lemma IdsUnique(projects: seq<SampleProject>)
    requires IdsByPosition(projects)
    ensures forall i, j :: 0 <= i < j < |projects| ==> projects[i].id != projects[j].id
  {
    forall i, j | 0 <= i < j < |projects|
      ensures projects[i].id != projects[j].id
    {
      if projects[i].id == projects[j].id {
        NatToStringInjective(i + 1, j + 1);
      }
    }
  }

  class Projects {
    var projects: seq<SampleProject>

    ghost predicate Valid()
      reads this
    {
      IdsByPosition(projects)
    }

    constructor ()
      ensures Valid() && projects == Initial
    {
      projects := Initial;
      InitialIdsByPosition();
    }

    /** `GET /`: the whole list, in insertion order. */
    function GetAll(): (r: seq<SampleProject>)
      requires Valid()
      reads this
      ensures r == projects
      ensures forall i, j :: 0 <= i < j < |r| ==> r[i].id != r[j].id
    {
      IdsUnique(projects);
      projects
    }

    /**
     * `POST /`: appends one project whose id is the previous length plus
     * one, with the body's name and department as given, and answers 201.
     */
    method Create(name: Option<string>, departmentId: Option<string>) returns (status: int, created: SampleProject)
      requires Valid()
      modifies this
      ensures Valid()
      ensures status == Http.Created
      ensures created == SampleProject(NatToString(|old(projects)| + 1), name, departmentId)
      ensures projects == old(projects) + [created]
      ensures forall p :: p in old(projects) ==> p.id != created.id
    {
      created := SampleProject(NatToString(|projects| + 1), name, departmentId);
      forall i | 0 <= i < |projects|
        ensures projects[i].id != created.id
      {
        if projects[i].id == created.id {
          NatToStringInjective(i + 1, |projects| + 1);
        }
      }
      projects := projects + [created];
      status := Http.Created;
    }
  }
}
