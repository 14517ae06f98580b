/**
 * The employee calls to the JSON store (src/services/employeeService.ts): the list a save
 * PUTs (with the new employee's id and hashed password), the delete-by-id filter, and how
 * each call settles.
 */
module EmployeeService {
  import opened Js
  import opened Types

  /** `employees.filter(employee => employee.id !== id)`. */
  function WithoutEmployee(employees: seq<Employee>, id: int): (r: seq<Employee>)
    ensures forall e :: e in r ==> e in employees && e.id != id
  {
    Filter(employees, (e: Employee) => e.id != id)
  }

  /** Deleting keeps every employee with another id as often as it occurs, in order, and
      keeps none with the deleted id. */
  lemma WithoutEmployeeExact(employees: seq<Employee>, more: seq<Employee>, id: int, e: Employee)
    ensures multiset(WithoutEmployee(employees, id))[e] == if e.id != id then multiset(employees)[e] else 0
    ensures WithoutEmployee(employees + more, id) == WithoutEmployee(employees, id) + WithoutEmployee(more, id)
  {
    FilterCount(employees, (e: Employee) => e.id != id, e);
    FilterAppend(employees, more, (e: Employee) => e.id != id);
  }

  /** Deleting an employee from a list with distinct ids leaves a list with distinct ids. */
  lemma {:induction false} WithoutEmployeeKeepsUniqueIds(employees: seq<Employee>, id: int)
    requires UniqueIds(EmployeeIds(employees))
    ensures UniqueIds(EmployeeIds(WithoutEmployee(employees, id)))
    decreases |employees|
  {
    if employees != [] {
      var n := |employees| - 1;
      var init, last := employees[..n], employees[n];
      assert UniqueIds(EmployeeIds(init)) by {
        forall i, j | 0 <= i < j < |init| ensures init[i].id != init[j].id {
          assert init[i] == employees[i] && init[j] == employees[j];
        }
      }
      WithoutEmployeeKeepsUniqueIds(init, id);
      var rest := WithoutEmployee(init, id);
      if last.id != id {
        assert WithoutEmployee(employees, id) == rest + [last];
        forall k | 0 <= k < |rest| ensures rest[k].id != last.id {
          assert rest[k] in rest;
          var m :| 0 <= m < |init| && init[m] == rest[k];
          assert employees[m].id != employees[n].id;
        }
        UniqueIdsSnoc(rest, last);
      } else {
        assert WithoutEmployee(employees, id) == rest;
      }
    }
  }

  /** Appending an employee whose id no listed employee has keeps the ids distinct. */
  lemma UniqueIdsSnoc(employees: seq<Employee>, e: Employee)
    requires UniqueIds(EmployeeIds(employees))
    requires forall k :: 0 <= k < |employees| ==> employees[k].id != e.id
    ensures UniqueIds(EmployeeIds(employees + [e]))
  {
    var r := employees + [e];
    forall i, j | 0 <= i < j < |r| ensures r[i].id != r[j].id {
      assert r[i] == employees[i];
      if j < |employees| {
        assert r[j] == employees[j];
      }
    }
  }

  /** The record `saveEmployee` appends: the submitted employee with id `employees.length + 1`
      and its password replaced by its SHA-256 hex digest (`sha256` stands for crypto-js). */
  function NewEmployeeRecord(employees: seq<Employee>, newEmployee: Employee, sha256: string -> string): (e: Employee)
    ensures e.id == |employees| + 1 && e.password == sha256(newEmployee.password)
    ensures e.name == newEmployee.name && e.email == newEmployee.email && e.position == newEmployee.position
    ensures e.username == newEmployee.username && e.role == newEmployee.role
  {
    newEmployee.(id := |employees| + 1, password := sha256(newEmployee.password))
  }

  /** The list `saveEmployee` PUTs: the current list, then the new record. */
  function SaveBody(employees: seq<Employee>, newEmployee: Employee, sha256: string -> string): (r: seq<Employee>)
    ensures |r| == |employees| + 1 && r[..|employees|] == employees
    ensures r[|employees|] == NewEmployeeRecord(employees, newEmployee, sha256)
  {
    employees + [NewEmployeeRecord(employees, newEmployee, sha256)]
  }

  /** Ids are positional: the i-th employee has id i + 1. */
  predicate PositionalIds(employees: seq<Employee>) {
    forall i :: 0 <= i < |employees| ==> employees[i].id == i + 1
  }

  /** While no employee was ever deleted, the ids stay positional and therefore distinct:
      the length-based id is fresh exactly in that case. */
  lemma SaveBodyKeepsPositionalIds(employees: seq<Employee>, newEmployee: Employee, sha256: string -> string)
    requires PositionalIds(employees)
    ensures PositionalIds(SaveBody(employees, newEmployee, sha256))
    ensures UniqueIds(EmployeeIds(SaveBody(employees, newEmployee, sha256)))
  {
    var r := SaveBody(employees, newEmployee, sha256);
    forall i | 0 <= i < |r| ensures r[i].id == i + 1 {
      if i < |employees| {
        assert r[i] == r[..|employees|][i];
      }
    }
  }

  /** A concrete list that shows the length-based id repeating an id: with employees 1, 2
      and 3, deleting 2 and then adding an employee gives the new one id 3 again. */
  lemma DeleteThenSaveDuplicatesId(sha256: string -> string)
    ensures var staff := [Employee(1, "a", "", "", "", "", EmployeeRole),
                          Employee(2, "b", "", "", "", "", EmployeeRole),
                          Employee(3, "c", "", "", "", "", EmployeeRole)];
            UniqueIds(EmployeeIds(staff)) &&
            !UniqueIds(EmployeeIds(SaveBody(WithoutEmployee(staff, 2), Employee(0, "d", "", "", "", "", EmployeeRole), sha256)))
  {
    var staff := [Employee(1, "a", "", "", "", "", EmployeeRole),
                  Employee(2, "b", "", "", "", "", EmployeeRole),
                  Employee(3, "c", "", "", "", "", EmployeeRole)];
    var p := (e: Employee) => e.id != 2;
    assert staff[..2][..1] == [staff[0]];
    assert staff[..1][..0] == [];
    assert Filter(staff[..1], p) == [staff[0]];
    assert Filter(staff[..2], p) == [staff[0]];
    assert WithoutEmployee(staff, 2) == [staff[0], staff[2]];
    var body := SaveBody(WithoutEmployee(staff, 2), Employee(0, "d", "", "", "", "", EmployeeRole), sha256);
    assert EmployeeIds(body)[1] == 3 && EmployeeIds(body)[2] == 3;
  }

  /** The largest id in the list, or 0 for a list without positive ids. */
  function MaxId(employees: seq<Employee>): (m: int)
    ensures m >= 0 && forall i :: 0 <= i < |employees| ==> employees[i].id <= m
    decreases |employees|
  {
    if employees == [] then 0
    else
      var m := MaxId(employees[..|employees| - 1]);
      var id := employees[|employees| - 1].id;
      if id > m then id else m
  }

  /** The id the save evidently intends: one more than every id in use. */
  function NextId(employees: seq<Employee>): (id: int)
    ensures id >= 1 && forall i :: 0 <= i < |employees| ==> employees[i].id != id
  {
    MaxId(employees) + 1
  }

  /** On a list whose ids are still positional the intended id is the length-based one, so the
      correction changes nothing until an employee has been deleted. */
  lemma {:induction false} NextIdOnPositionalIds(employees: seq<Employee>)
    requires PositionalIds(employees)
    ensures NextId(employees) == |employees| + 1
    decreases |employees|
  {
    if employees != [] {
      NextIdOnPositionalIds(employees[..|employees| - 1]);
    }
  }

  /** The save with the intended id. */
  function IntendedSaveBody(employees: seq<Employee>, newEmployee: Employee, sha256: string -> string): (r: seq<Employee>)
    ensures |r| == |employees| + 1 && r[..|employees|] == employees
    ensures r[|employees|].id == NextId(employees) && r[|employees|].password == sha256(newEmployee.password)
  {
    employees + [newEmployee.(id := NextId(employees), password := sha256(newEmployee.password))]
  }

  /** With the intended id, saving keeps the ids distinct on every list, including one that
      went through deletes. */
  lemma IntendedSaveKeepsUniqueIds(employees: seq<Employee>, newEmployee: Employee, sha256: string -> string)
    requires UniqueIds(EmployeeIds(employees))
    ensures UniqueIds(EmployeeIds(IntendedSaveBody(employees, newEmployee, sha256)))
  {
    var r := IntendedSaveBody(employees, newEmployee, sha256);
    forall i, j | 0 <= i < j < |r| ensures r[i].id != r[j].id {
      assert r[i] == r[..|employees|][i];
      if j < |employees| {
        assert r[j] == r[..|employees|][j];
      }
    }
  }

  /** `fetchEmployees`: the stored list on an ok response; any failure is logged and the call
      resolves to `undefined`. It never rejects. */
  function FetchEmployees(response: Response<seq<Employee>>): (r: Settled<seq<Employee>>)
    ensures !r.Thrown?
    ensures r.Value? <==> response.Ok?
    ensures r.Value? ==> r.value == response.record
  {
    match response
    case Ok(record) => Value(record)
    case NotOk => Undefined
    case Rejected(_) => Undefined
  }

  const SaveEmployeeError := "Error al guardar el empleado"

  /** `saveEmployee`: it PUTs `SaveBody` and resolves to the `record` of an ok response; a
      non-ok response rejects with 'Error al guardar el empleado' and a rejected fetch
      rejects with its own error. It never resolves to `undefined`. */
  function SaveEmployee(response: Response<seq<Employee>>): (r: Settled<seq<Employee>>)
    ensures !r.Undefined?
    ensures r.Value? <==> response.Ok?
    ensures r.Value? ==> r.value == response.record
    ensures response.NotOk? ==> r == Thrown(SaveEmployeeError)
    ensures response.Rejected? ==> r == Thrown(response.message)
  {
    match response
    case Ok(record) => Value(record)
    case NotOk => Thrown(SaveEmployeeError)
    case Rejected(message) => Thrown(message)
  }

  /** `deleteEmployee(id, employees)`: PUTs the filtered list and resolves to it when the
      response is ok; otherwise the error is caught and the call resolves to `undefined`. */
  function DeleteEmployee(id: int, employees: seq<Employee>, response: Response<()>): (r: Settled<seq<Employee>>)
    ensures !r.Thrown?
    ensures r.Value? <==> response.Ok?
    ensures r.Value? ==> r.value == WithoutEmployee(employees, id)
  {
    var updatedEmployees := WithoutEmployee(employees, id);
    if response.Ok? then Value(updatedEmployees) else Undefined
  }
}
