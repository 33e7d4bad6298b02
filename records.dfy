/**
 * The shapes of the clinic's records (one datatype per table, the field
 * lists and optionality of the Pydantic models), the column vocabulary of
 * the relational schema, and the meaning of one `column = value` assignment
 * of an UPDATE statement.
 */
module Records {
  import opened Wrappers

  datatype Date = Date(year: int, month: int, day: int)
  datatype Time = Time(hour: int, minute: int, second: int)
  datatype DateTime = DateTime(date: Date, time: Time)

  datatype Paciente = Paciente(
    nombre: string,
    apellido: string,
    fechaNacimiento: Date,
    telefono: Option<string>,
    email: Option<string>,
    direccion: Option<string>)

  datatype Especialidad = Especialidad(nombre: string, descripcion: Option<string>)

  datatype Doctor = Doctor(
    nombre: string,
    apellido: string,
    telefono: Option<string>,
    email: Option<string>,
    idEspecialidad: int)

  datatype Historial = Historial(
    fecha: Date,
    diagnostico: Option<string>,
    tratamiento: Option<string>,
    observaciones: Option<string>,
    idPaciente: int,
    idDoctor: int)

  datatype Cita = Cita(fechaHora: DateTime, motivo: Option<string>, idPaciente: int, idDoctor: int)

  /** The five tables of the schema. */
  datatype Table = PacienteTable | EspecialidadTable | DoctorTable | HistorialTable | CitaTable

  /** The non-key columns of the schema (the row identifiers are never assigned). */
  datatype Column =
    | Nombre | Apellido | FechaNacimiento | Telefono | Email | Direccion
    | Descripcion | IdEspecialidad
    | Fecha | Diagnostico | Tratamiento | Observaciones | IdPaciente | IdDoctor
    | FechaHora | Motivo

  /** A statement parameter, as bound to a `%s` placeholder. */
  datatype Value = Text(text: string) | Day(day: Date) | Moment(moment: DateTime) | Id(id: int)

  datatype Kind = TextKind | DayKind | MomentKind | IdKind

  function KindOf(v: Value): Kind {
    match v
    case Text(_) => TextKind
    case Day(_) => DayKind
    case Moment(_) => MomentKind
    case Id(_) => IdKind
  }

  /** The schema: which columns each table has, and of what kind. */
  function ColumnKind(t: Table, col: Column): Option<Kind> {
    match (t, col)
    case (PacienteTable, Nombre) => Some(TextKind)
    case (PacienteTable, Apellido) => Some(TextKind)
    case (PacienteTable, FechaNacimiento) => Some(DayKind)
    case (PacienteTable, Telefono) => Some(TextKind)
    case (PacienteTable, Email) => Some(TextKind)
    case (PacienteTable, Direccion) => Some(TextKind)
    case (EspecialidadTable, Nombre) => Some(TextKind)
    case (EspecialidadTable, Descripcion) => Some(TextKind)
    case (DoctorTable, Nombre) => Some(TextKind)
    case (DoctorTable, Apellido) => Some(TextKind)
    case (DoctorTable, Telefono) => Some(TextKind)
    case (DoctorTable, Email) => Some(TextKind)
    case (DoctorTable, IdEspecialidad) => Some(IdKind)
    case (HistorialTable, Fecha) => Some(DayKind)
    case (HistorialTable, Diagnostico) => Some(TextKind)
    case (HistorialTable, Tratamiento) => Some(TextKind)
    case (HistorialTable, Observaciones) => Some(TextKind)
    case (HistorialTable, IdPaciente) => Some(IdKind)
    case (HistorialTable, IdDoctor) => Some(IdKind)
    case (CitaTable, FechaHora) => Some(MomentKind)
    case (CitaTable, Motivo) => Some(TextKind)
    case (CitaTable, IdPaciente) => Some(IdKind)
    case (CitaTable, IdDoctor) => Some(IdKind)
    case _ => None
  }

  /** One stored row of any table. */
  datatype Row =
    | PacienteRow(paciente: Paciente)
    | EspecialidadRow(especialidad: Especialidad)
    | DoctorRow(doctor: Doctor)
    | HistorialRow(historial: Historial)
    | CitaRow(cita: Cita)

  function TableOf(row: Row): Table {
    match row
    case PacienteRow(_) => PacienteTable
    case EspecialidadRow(_) => EspecialidadTable
    case DoctorRow(_) => DoctorTable
    case HistorialRow(_) => HistorialTable
    case CitaRow(_) => CitaTable
  }

  /** An optional text as an optional cell value, `None` standing for SQL NULL. */
  function TextCell(o: Option<string>): Option<Value> {
    match o
    case Some(s) => Some(Text(s))
    case None => None
  }

  /** The value stored in a column of a row: `None` for SQL NULL or for a column the table lacks. */
  function Cell(row: Row, col: Column): Option<Value> {
    match row
    case PacienteRow(p) =>
      (match col
       case Nombre => Some(Text(p.nombre))
       case Apellido => Some(Text(p.apellido))
       case FechaNacimiento => Some(Day(p.fechaNacimiento))
       case Telefono => TextCell(p.telefono)
       case Email => TextCell(p.email)
       case Direccion => TextCell(p.direccion)
       case _ => None)
    case EspecialidadRow(e) =>
      (match col
       case Nombre => Some(Text(e.nombre))
       case Descripcion => TextCell(e.descripcion)
       case _ => None)
    case DoctorRow(d) =>
      (match col
       case Nombre => Some(Text(d.nombre))
       case Apellido => Some(Text(d.apellido))
       case Telefono => TextCell(d.telefono)
       case Email => TextCell(d.email)
       case IdEspecialidad => Some(Id(d.idEspecialidad))
       case _ => None)
    case HistorialRow(h) =>
      (match col
       case Fecha => Some(Day(h.fecha))
       case Diagnostico => TextCell(h.diagnostico)
       case Tratamiento => TextCell(h.tratamiento)
       case Observaciones => TextCell(h.observaciones)
       case IdPaciente => Some(Id(h.idPaciente))
       case IdDoctor => Some(Id(h.idDoctor))
       case _ => None)
    case CitaRow(c) =>
      (match col
       case FechaHora => Some(Moment(c.fechaHora))
       case Motivo => TextCell(c.motivo)
       case IdPaciente => Some(Id(c.idPaciente))
       case IdDoctor => Some(Id(c.idDoctor))
       case _ => None)
  }

  /** The store accepts `col = v` on a row of this table only when the column exists and `v` has its kind. */
  predicate Fits(t: Table, col: Column, v: Value) {
    ColumnKind(t, col) == Some(KindOf(v))
  }

  /**
   * One `col = v` assignment of an UPDATE: it stores `v` in that column and
   * leaves every other column as it was; the store rejects a column the
   * table does not have or a value of the wrong kind.
   */
  function Set(row: Row, col: Column, v: Value): (r: Option<Row>)
    ensures r.Some? <==> Fits(TableOf(row), col, v)
    ensures r.Some? ==> TableOf(r.value) == TableOf(row) && Cell(r.value, col) == Some(v)
    ensures r.Some? ==> forall other :: other != col ==> Cell(r.value, other) == Cell(row, other)
  {
    match row
    case PacienteRow(p) =>
      (match SetPaciente(p, col, v) case Some(q) => Some(PacienteRow(q)) case None => None)
    case EspecialidadRow(e) =>
      (match SetEspecialidad(e, col, v) case Some(f) => Some(EspecialidadRow(f)) case None => None)
    case DoctorRow(d) =>
      (match SetDoctor(d, col, v) case Some(g) => Some(DoctorRow(g)) case None => None)
    case HistorialRow(h) =>
      (match SetHistorial(h, col, v) case Some(k) => Some(HistorialRow(k)) case None => None)
    case CitaRow(c) =>
      (match SetCita(c, col, v) case Some(c2) => Some(CitaRow(c2)) case None => None)
  }

  function SetPaciente(p: Paciente, col: Column, v: Value): (r: Option<Paciente>)
    ensures r.Some? <==> Fits(PacienteTable, col, v)
    ensures r.Some? ==> Cell(PacienteRow(r.value), col) == Some(v)
    ensures r.Some? ==> forall other :: other != col ==> Cell(PacienteRow(r.value), other) == Cell(PacienteRow(p), other)
  {
    match (col, v)
    case (Nombre, Text(s)) => Some(p.(nombre := s))
    case (Apellido, Text(s)) => Some(p.(apellido := s))
    case (FechaNacimiento, Day(d)) => Some(p.(fechaNacimiento := d))
    case (Telefono, Text(s)) => Some(p.(telefono := Some(s)))
    case (Email, Text(s)) => Some(p.(email := Some(s)))
    case (Direccion, Text(s)) => Some(p.(direccion := Some(s)))
    case _ => None
  }

  function SetEspecialidad(e: Especialidad, col: Column, v: Value): (r: Option<Especialidad>)
    ensures r.Some? <==> Fits(EspecialidadTable, col, v)
    ensures r.Some? ==> Cell(EspecialidadRow(r.value), col) == Some(v)
    ensures r.Some? ==> forall other :: other != col ==> Cell(EspecialidadRow(r.value), other) == Cell(EspecialidadRow(e), other)
  {
    match (col, v)
    case (Nombre, Text(s)) => Some(e.(nombre := s))
    case (Descripcion, Text(s)) => Some(e.(descripcion := Some(s)))
    case _ => None
  }

  function SetDoctor(d: Doctor, col: Column, v: Value): (r: Option<Doctor>)
    ensures r.Some? <==> Fits(DoctorTable, col, v)
    ensures r.Some? ==> Cell(DoctorRow(r.value), col) == Some(v)
    ensures r.Some? ==> forall other :: other != col ==> Cell(DoctorRow(r.value), other) == Cell(DoctorRow(d), other)
  {
    match (col, v)
    case (Nombre, Text(s)) => Some(d.(nombre := s))
    case (Apellido, Text(s)) => Some(d.(apellido := s))
    case (Telefono, Text(s)) => Some(d.(telefono := Some(s)))
    case (Email, Text(s)) => Some(d.(email := Some(s)))
    case (IdEspecialidad, Id(n)) => Some(d.(idEspecialidad := n))
    case _ => None
  }

  function SetHistorial(h: Historial, col: Column, v: Value): (r: Option<Historial>)
    ensures r.Some? <==> Fits(HistorialTable, col, v)
    ensures r.Some? ==> Cell(HistorialRow(r.value), col) == Some(v)
    ensures r.Some? ==> forall other :: other != col ==> Cell(HistorialRow(r.value), other) == Cell(HistorialRow(h), other)
  {
    match (col, v)
    case (Fecha, Day(d)) => Some(h.(fecha := d))
    case (Diagnostico, Text(s)) => Some(h.(diagnostico := Some(s)))
    case (Tratamiento, Text(s)) => Some(h.(tratamiento := Some(s)))
    case (Observaciones, Text(s)) => Some(h.(observaciones := Some(s)))
    case (IdPaciente, Id(n)) => Some(h.(idPaciente := n))
    case (IdDoctor, Id(n)) => Some(h.(idDoctor := n))
    case _ => None
  }

  function SetCita(c: Cita, col: Column, v: Value): (r: Option<Cita>)
    ensures r.Some? <==> Fits(CitaTable, col, v)
    ensures r.Some? ==> Cell(CitaRow(r.value), col) == Some(v)
    ensures r.Some? ==> forall other :: other != col ==> Cell(CitaRow(r.value), other) == Cell(CitaRow(c), other)
  {
    match (col, v)
    case (FechaHora, Moment(t)) => Some(c.(fechaHora := t))
    case (Motivo, Text(s)) => Some(c.(motivo := Some(s)))
    case (IdPaciente, Id(n)) => Some(c.(idPaciente := n))
    case (IdDoctor, Id(n)) => Some(c.(idDoctor := n))
    case _ => None
  }

  /** The SET clause `f0 = p0, f1 = p1, ...`: the assignments applied left to right. */
  function Assign(row: Row, fields: seq<Column>, params: seq<Value>): Option<Row>
    requires |fields| == |params|
    decreases |fields|
  {
    if fields == [] then Some(row)
    else
      match Set(row, fields[0], params[0])
      case None => None
      case Some(next) => Assign(next, fields[1..], params[1..])
  }

  /** An UPDATE never moves a row to another table. */
  lemma {:induction false} AssignKeepsTable(row: Row, fields: seq<Column>, params: seq<Value>)
    requires |fields| == |params|
    ensures Assign(row, fields, params).Some? ==> TableOf(Assign(row, fields, params).value) == TableOf(row)
    decreases |fields|
  {
    if fields != [] && Set(row, fields[0], params[0]).Some? {
      AssignKeepsTable(Set(row, fields[0], params[0]).value, fields[1..], params[1..]);
    }
  }

  /**
   * A SET clause over distinct columns that all fit the table leaves every
   * assigned column holding its parameter and every other column as it was.
   */
  lemma {:induction false} AssignCells(row: Row, fields: seq<Column>, params: seq<Value>)
    requires |fields| == |params|
    requires forall i, j :: 0 <= i < j < |fields| ==> fields[i] != fields[j]
    requires forall i :: 0 <= i < |fields| ==> Fits(TableOf(row), fields[i], params[i])
    ensures Assign(row, fields, params).Some?
    ensures TableOf(Assign(row, fields, params).value) == TableOf(row)
    ensures forall i :: 0 <= i < |fields| ==> Cell(Assign(row, fields, params).value, fields[i]) == Some(params[i])
    ensures forall col :: col !in fields ==> Cell(Assign(row, fields, params).value, col) == Cell(row, col)
    decreases |fields|
  {
    if fields != [] {
      var next := Set(row, fields[0], params[0]).value;
      AssignCells(next, fields[1..], params[1..]);
      var r := Assign(next, fields[1..], params[1..]).value;
      assert Assign(row, fields, params).value == r;
      forall i | 0 <= i < |fields|
        ensures Cell(r, fields[i]) == Some(params[i])
      {
        if i > 0 {
          assert fields[1..][i - 1] == fields[i];
        } else {
          assert fields[0] !in fields[1..] by {
            forall k | 0 <= k < |fields[1..]| ensures fields[1..][k] != fields[0] {
              assert fields[1..][k] == fields[k + 1];
            }
          }
        }
      }
      forall col | col !in fields
        ensures Cell(r, col) == Cell(row, col)
      {
        assert col != fields[0];
        assert col !in fields[1..];
      }
    }
  }

  /** A nullable text column holds back the value it was given. */
  lemma TextCellInjective(x: Option<string>, y: Option<string>)
    requires TextCell(x) == TextCell(y)
    ensures x == y
  {
  }

  /** A row is determined by its table and its cells. */
  lemma CellsDetermineRow(a: Row, b: Row)
    requires TableOf(a) == TableOf(b)
    requires forall col :: Cell(a, col) == Cell(b, col)
    ensures a == b
  {
    match a
    case PacienteRow(p) => CellsDeterminePaciente(p, b.paciente);
    case EspecialidadRow(e) => CellsDetermineEspecialidad(e, b.especialidad);
    case DoctorRow(d) => CellsDetermineDoctor(d, b.doctor);
    case HistorialRow(h) => CellsDetermineHistorial(h, b.historial);
    case CitaRow(c) => CellsDetermineCita(c, b.cita);
  }

  lemma CellsDeterminePaciente(p: Paciente, q: Paciente)
    requires forall col :: Cell(PacienteRow(p), col) == Cell(PacienteRow(q), col)
    ensures p == q
  {
    var a, b := PacienteRow(p), PacienteRow(q);
    assert Cell(a, Nombre) == Cell(b, Nombre) && Cell(a, Apellido) == Cell(b, Apellido);
    assert Cell(a, FechaNacimiento) == Cell(b, FechaNacimiento);
    TextCellInjective(p.telefono, q.telefono) by { assert Cell(a, Telefono) == Cell(b, Telefono); }
    TextCellInjective(p.email, q.email) by { assert Cell(a, Email) == Cell(b, Email); }
    TextCellInjective(p.direccion, q.direccion) by { assert Cell(a, Direccion) == Cell(b, Direccion); }
  }

  lemma CellsDetermineEspecialidad(e: Especialidad, f: Especialidad)
    requires forall col :: Cell(EspecialidadRow(e), col) == Cell(EspecialidadRow(f), col)
    ensures e == f
  {
    var a, b := EspecialidadRow(e), EspecialidadRow(f);
    assert Cell(a, Nombre) == Cell(b, Nombre);
    TextCellInjective(e.descripcion, f.descripcion) by { assert Cell(a, Descripcion) == Cell(b, Descripcion); }
  }

  lemma CellsDetermineDoctor(d: Doctor, g: Doctor)
    requires forall col :: Cell(DoctorRow(d), col) == Cell(DoctorRow(g), col)
    ensures d == g
  {
    var a, b := DoctorRow(d), DoctorRow(g);
    assert Cell(a, Nombre) == Cell(b, Nombre) && Cell(a, Apellido) == Cell(b, Apellido);
    assert Cell(a, IdEspecialidad) == Cell(b, IdEspecialidad);
    TextCellInjective(d.telefono, g.telefono) by { assert Cell(a, Telefono) == Cell(b, Telefono); }
    TextCellInjective(d.email, g.email) by { assert Cell(a, Email) == Cell(b, Email); }
  }

  lemma CellsDetermineHistorial(h: Historial, k: Historial)
    requires forall col :: Cell(HistorialRow(h), col) == Cell(HistorialRow(k), col)
    ensures h == k
  {
    var a, b := HistorialRow(h), HistorialRow(k);
    assert Cell(a, Fecha) == Cell(b, Fecha);
    assert Cell(a, IdPaciente) == Cell(b, IdPaciente) && Cell(a, IdDoctor) == Cell(b, IdDoctor);
    TextCellInjective(h.diagnostico, k.diagnostico) by { assert Cell(a, Diagnostico) == Cell(b, Diagnostico); }
    TextCellInjective(h.tratamiento, k.tratamiento) by { assert Cell(a, Tratamiento) == Cell(b, Tratamiento); }
    TextCellInjective(h.observaciones, k.observaciones) by { assert Cell(a, Observaciones) == Cell(b, Observaciones); }
  }

  lemma CellsDetermineCita(c: Cita, c2: Cita)
    requires forall col :: Cell(CitaRow(c), col) == Cell(CitaRow(c2), col)
    ensures c == c2
  {
    var a, b := CitaRow(c), CitaRow(c2);
    assert Cell(a, FechaHora) == Cell(b, FechaHora);
    assert Cell(a, IdPaciente) == Cell(b, IdPaciente) && Cell(a, IdDoctor) == Cell(b, IdDoctor);
    TextCellInjective(c.motivo, c2.motivo) by { assert Cell(a, Motivo) == Cell(b, Motivo); }
  }
}
