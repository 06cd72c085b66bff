/** Processes: a named process (process_name_uk) with an operation and a responsible
    user; the responsible is the one column that changes after creation. */
module Processes {
  import opened Common
  import opened Text
  import opened Validation
  import opened ValidUuid
  import opened Tables
  import Users
  import Operations

  /** The stored columns of a process: its name and the keys of its operation and of its
      responsible user. */
  datatype ProcessRecord = ProcessRecord(name: string, operation: Id, responsible: Id)

  class Process {
    const id: Id
    const name: string
    const operation: Id
    var responsible: Id

    constructor (id: Id, r: ProcessRecord)
      ensures this.id == id && Record() == r
    {
      this.id := id;
      this.name := r.name;
      this.operation := r.operation;
      this.responsible := r.responsible;
    }

    function Record(): ProcessRecord
      reads this
    {
      ProcessRecord(name, operation, responsible)
    }

    /** Process.update: the responsible is replaced; name and operation are constants. */
    method Update(responsible: Id)
      modifies this
      ensures this.responsible == responsible
    {
      this.responsible := responsible;
    }
  }

  /** The request ids are typed UUIDs, so @NotNull never fires on them. */
  datatype NewProcessRequest = NewProcessRequest(responsibleId: Id, name: string, operationId: Id)
  datatype UpdateProcessRequest = UpdateProcessRequest(responsibleId: Id)

  function NameOf(r: ProcessRecord): string {
    r.name
  }

  function ProcessExists(name: string): string {
    "Process already exists with name " + name
  }

  function ProcessNotFound(id: string): string {
    "Process not found with id " + id
  }

  function ResponsibleNotFound(id: Id): string {
    "Responsible not found with id " + id
  }

  function OperationNotFound(id: Id): string {
    "Operation not found with id " + id
  }

  /** The violations @Valid reports for a NewProcessRequest: only the name can fail. */
  function NewProcessViolations(request: NewProcessRequest): (v: set<Violation>)
    ensures v == {} <==> !IsBlank(request.name)
  {
    NotBlank("name", request.name)
  }

  /** NewProcessRequest.toModel: the responsible is looked up first, then the operation;
      the new process carries the request's name and both keys. */
  function ToModel(request: NewProcessRequest, users: set<Id>, operations: set<Id>): (r: Result<ProcessRecord>)
    ensures r.Success? <==> request.responsibleId in users && request.operationId in operations
    ensures request.responsibleId !in users ==> r == Failure(NotFound(ResponsibleNotFound(request.responsibleId)))
    ensures request.responsibleId in users && request.operationId !in operations ==>
      r == Failure(NotFound(OperationNotFound(request.operationId)))
    ensures r.Success? ==>
      r.value.name == request.name && r.value.operation == request.operationId
      && r.value.responsible == request.responsibleId
  {
    if request.responsibleId !in users then Failure(NotFound(ResponsibleNotFound(request.responsibleId)))
    else if request.operationId !in operations then Failure(NotFound(OperationNotFound(request.operationId)))
    else Success(ProcessRecord(request.name, request.operationId, request.responsibleId))
  }

  /** UpdateProcessRequest.responsible: the user with the requested key, or NotFound. */
  function Responsible(request: UpdateProcessRequest, users: set<Id>): (r: Result<Id>)
    ensures r.Success? <==> request.responsibleId in users
    ensures r.Success? ==> r.value == request.responsibleId
    ensures r.Failure? ==> r.error == NotFound(ResponsibleNotFound(request.responsibleId))
  {
    if request.responsibleId in users then Success(request.responsibleId)
    else Failure(NotFound(ResponsibleNotFound(request.responsibleId)))
  }

  /** ProcessService.read: every process for a null or blank name, otherwise the
      processes with exactly that name. */
  function Query(name: Option<string>, rows: map<Id, ProcessRecord>): (r: map<Id, ProcessRecord>)
    ensures r.Keys <= rows.Keys
    ensures forall k :: k in r ==> r[k] == rows[k]
    ensures (name.None? || IsKotlinBlank(name.value)) ==> r == rows
    ensures name.Some? && !IsKotlinBlank(name.value) ==> forall k :: k in rows ==> (k in r <==> rows[k].name == name.value)
  {
    if name.None? || IsKotlinBlank(name.value) then rows
    else map k | k in rows && rows[k].name == name.value :: rows[k]
  }

  /** Names are unique, so a name filter finds at most one process. */
  lemma QueryByNameFindsAtMostOne(rows: map<Id, ProcessRecord>, name: string)
    requires Unique(rows, NameOf) && !IsKotlinBlank(name)
    ensures |Query(Some(name), rows)| <= 1
  {
    var found := Query(Some(name), rows);
    if k :| k in found {
      assert found.Keys == {k} by {
        forall j | j in found ensures j == k {
          assert NameOf(rows[j]) == name && NameOf(rows[k]) == name;
        }
      }
      assert |found| == |found.Keys|;
    }
  }

  class ProcessService {
    var processes: map<Id, Process>
    const users: Users.UserService
    const operations: Operations.OperationRepository

    constructor (users: Users.UserService, operations: Operations.OperationRepository)
      ensures processes == map[] && this.users == users && this.operations == operations && Valid()
    {
      processes := map[];
      this.users := users;
      this.operations := operations;
    }

    function Rows(): map<Id, ProcessRecord>
      reads this, processes.Values
    {
      map k | k in processes :: processes[k].Record()
    }

    ghost predicate Valid()
      reads this, processes.Values
    {
      (forall k :: k in processes ==> processes[k].id == k) && Unique(Rows(), NameOf)
    }

    /** create: validation, then the name check, then toModel's lookups, then one row. */
    method Create(request: NewProcessRequest, newId: Id) returns (r: Result<Process>)
      requires Valid() && newId !in processes
      modifies this
      ensures Valid()
      ensures NewProcessViolations(request) != {} ==>
        r == Failure(ConstraintViolations(NewProcessViolations(request)))
      ensures NewProcessViolations(request) == {} && InUse(old(Rows()), NameOf, request.name) ==>
        r == Failure(AlreadyExists(ProcessExists(request.name)))
      ensures NewProcessViolations(request) == {} && !InUse(old(Rows()), NameOf, request.name) ==>
        match ToModel(request, users.users.Keys, operations.operations.Keys)
        case Failure(e) => r == Failure(e)
        case Success(record) =>
          && r.Success? && fresh(r.value) && r.value.id == newId
          && processes == old(processes)[newId := r.value]
          && Rows() == old(Rows())[newId := record]
      ensures r.Failure? ==> processes == old(processes) && Rows() == old(Rows())
    {
      var v := NewProcessViolations(request);
      if v != {} {
        return Failure(ConstraintViolations(v));
      }
      if InUse(Rows(), NameOf, request.name) {
        return Failure(AlreadyExists(ProcessExists(request.name)));
      }
      var model := ToModel(request, users.users.Keys, operations.operations.Keys);
      if model.Failure? {
        return Failure(model.error);
      }
      ghost var before := Rows();
      var process := new Process(newId, model.value);
      processes := processes[newId := process];
      assert Rows() == before[newId := process.Record()];
      assert before - {newId} == before;
      StoreKeepsUnique(before, NameOf, newId, process.Record());
      r := Success(process);
    }

    /** update: validation of the id, then the process lookup, then the responsible
        lookup; only the responsible changes. */
    method Update(request: UpdateProcessRequest, id: string) returns (r: Result<Process>)
      requires Valid()
      modifies processes.Values
      ensures Valid() && processes == old(processes)
      ensures IdViolations("id", id) != {} ==> r == Failure(ConstraintViolations(IdViolations("id", id)))
      ensures IdViolations("id", id) == {} && id !in processes ==> r == Failure(NotFound(ProcessNotFound(id)))
      ensures IdViolations("id", id) == {} && id in processes ==>
        match Responsible(request, users.users.Keys)
        case Failure(e) => r == Failure(e)
        case Success(responsible) =>
          && r == Success(processes[id])
          && Rows() == old(Rows())[id := old(Rows())[id].(responsible := responsible)]
      ensures r.Failure? ==> Rows() == old(Rows())
    {
      var v := IdViolations("id", id);
      if v != {} {
        return Failure(ConstraintViolations(v));
      }
      if id !in processes {
        return Failure(NotFound(ProcessNotFound(id)));
      }
      var process := processes[id];
      var responsible := Responsible(request, users.users.Keys);
      if responsible.Failure? {
        return Failure(responsible.error);
      }
      ghost var before := Rows();
      process.Update(responsible.value);
      assert Rows() == before[id := process.Record()] by {
        forall k | k in processes && k != id ensures processes[k] != process {
          assert processes[k].id == k;
        }
      }
      assert NameOf(process.Record()) == NameOf(before[id]);
      RewriteKeepsUnique(before, NameOf, id, process.Record());
      r := Success(process);
    }

    /** delete: validation of the id, then the lookup; the row is removed. */
    method Delete(id: string) returns (r: Result<Process>)
      requires Valid()
      modifies this
      ensures Valid()
      ensures IdViolations("id", id) != {} ==> r == Failure(ConstraintViolations(IdViolations("id", id)))
      ensures IdViolations("id", id) == {} && id !in old(processes) ==> r == Failure(NotFound(ProcessNotFound(id)))
      ensures r.Failure? ==> processes == old(processes) && Rows() == old(Rows())
      ensures IdViolations("id", id) == {} && id in old(processes) ==>
        && r == Success(old(processes)[id])
        && processes == old(processes) - {id}
        && Rows() == old(Rows()) - {id}
    {
      var v := IdViolations("id", id);
      if v != {} {
        return Failure(ConstraintViolations(v));
      }
      if id !in processes {
        return Failure(NotFound(ProcessNotFound(id)));
      }
      ghost var before := Rows();
      var process := processes[id];
      processes := processes - {id};
      assert Rows() == before - {id};
      RemoveKeepsUnique(before, NameOf, id);
      r := Success(process);
    }
  }
}
