/**
 * Partial updates: the `*Update` models as changesets of optional fields,
 * and the five builders (`actualizar_paciente`, `actualizar_especialidad`,
 * `actualizar_doctor`, `actualizar_historial`, `actualizar_cita`) that turn
 * a changeset into the assignment list and parameter list of an UPDATE.
 */
module Changesets {
  import opened Wrappers
  import opened Records

  /** `UPDATE <table> SET fields[0] = %s, ... WHERE id = %s` with its parameters, the id last. */
  datatype Update = Update(table: Table, fields: seq<Column>, params: seq<Value>)

  predicate Distinct(cols: seq<Column>) {
    forall i, j :: 0 <= i < j < |cols| ==> cols[i] != cols[j]
  }

  /** The assignment one `if <field> is not None:` step contributes: the column when supplied, nothing otherwise. */
  function Assignment(col: Column, v: Option<Value>): seq<Column> {
    if v.Some? then [col] else []
  }

  /** The parameter that step contributes. */
  function Param(v: Option<Value>): seq<Value> {
    if v.Some? then [v.value] else []
  }

  /** The columns among the first `n` of `cols` that a changeset supplies, in the order of `cols`. */
  function PresentUpTo(cols: seq<Column>, n: nat, get: Column -> Option<Value>): seq<Column>
    requires n <= |cols|
  {
    if n == 0 then [] else PresentUpTo(cols, n - 1, get) + Assignment(cols[n - 1], get(cols[n - 1]))
  }

  /** The values supplied for those columns, in the same order. */
  function ValuesUpTo(cols: seq<Column>, n: nat, get: Column -> Option<Value>): seq<Value>
    requires n <= |cols|
  {
    if n == 0 then [] else ValuesUpTo(cols, n - 1, get) + Param(get(cols[n - 1]))
  }

  /** The columns of `cols` that a changeset supplies, kept in the order of `cols`. */
  function Present(cols: seq<Column>, get: Column -> Option<Value>): seq<Column> {
    PresentUpTo(cols, |cols|, get)
  }

  /** The values a changeset supplies for those columns. */
  function PresentValues(cols: seq<Column>, get: Column -> Option<Value>): seq<Value> {
    ValuesUpTo(cols, |cols|, get)
  }

  /** Membership and distinctness, for a prefix of the column list. */
  lemma {:induction false} PresentUpToColumns(cols: seq<Column>, n: nat, get: Column -> Option<Value>)
    requires n <= |cols|
    ensures forall col :: col in PresentUpTo(cols, n, get) <==> col in cols[..n] && get(col).Some?
    ensures Distinct(cols) ==> Distinct(PresentUpTo(cols, n, get))
  {
    if n > 0 {
      PresentUpToColumns(cols, n - 1, get);
      assert cols[..n] == cols[..n - 1] + [cols[n - 1]];
      if Distinct(cols) {
        assert cols[n - 1] !in cols[..n - 1];
      }
    }
  }

  /** A column is assigned exactly when the changeset supplies it; a duplicate-free column list gives duplicate-free assignments. */
  lemma PresentColumns(cols: seq<Column>, get: Column -> Option<Value>)
    ensures forall col :: col in Present(cols, get) <==> col in cols && get(col).Some?
    ensures Distinct(cols) ==> Distinct(Present(cols, get))
  {
    PresentUpToColumns(cols, |cols|, get);
    assert cols[..|cols|] == cols;
  }

  /** Pairing of columns and values, for a prefix of the column list. */
  lemma {:induction false} ValuesUpToMatch(cols: seq<Column>, n: nat, get: Column -> Option<Value>)
    requires n <= |cols|
    ensures |ValuesUpTo(cols, n, get)| == |PresentUpTo(cols, n, get)|
    ensures forall i :: 0 <= i < |PresentUpTo(cols, n, get)| ==> get(PresentUpTo(cols, n, get)[i]) == Some(ValuesUpTo(cols, n, get)[i])
  {
    if n > 0 {
      ValuesUpToMatch(cols, n - 1, get);
    }
  }

  /** Each supplied column is paired with the value the changeset supplies for it. */
  lemma PresentValuesMatch(cols: seq<Column>, get: Column -> Option<Value>)
    ensures |PresentValues(cols, get)| == |Present(cols, get)|
    ensures forall i :: 0 <= i < |Present(cols, get)| ==> get(Present(cols, get)[i]) == Some(PresentValues(cols, get)[i])
  {
    ValuesUpToMatch(cols, |cols|, get);
  }

  /**
   * One `if <field> is not None:` step of a builder: the column and its value
   * are appended exactly when the changeset supplies the field.
   */
  method AppendIfSupplied(fields: seq<Column>, params: seq<Value>, col: Column, v: Option<Value>)
    returns (fields': seq<Column>, params': seq<Value>)
    ensures fields' == fields + Assignment(col, v) && params' == params + Param(v)
  {
    fields', params' := fields, params;
    if v.Some? {
      fields' := fields' + [col];
      params' := params' + [v.value];
    }
  }

  function DayOf(o: Option<Date>): Option<Value> {
    match o
    case Some(d) => Some(Day(d))
    case None => None
  }

  function MomentOf(o: Option<DateTime>): Option<Value> {
    match o
    case Some(t) => Some(Moment(t))
    case None => None
  }

  function IdOf(o: Option<int>): Option<Value> {
    match o
    case Some(n) => Some(Id(n))
    case None => None
  }

  // ---------------------------------------------------------------- Paciente

  /** Declaration order of the updatable patient fields. */
  const PacienteColumns: seq<Column> := [Nombre, Apellido, FechaNacimiento, Telefono, Email, Direccion]

  datatype PacienteUpdate = PacienteUpdate(
    nombre: Option<string>,
    apellido: Option<string>,
    fechaNacimiento: Option<Date>,
    telefono: Option<string>,
    email: Option<string>,
    direccion: Option<string>)
  {
    predicate IsEmpty() {
      nombre.None? && apellido.None? && fechaNacimiento.None? && telefono.None? && email.None? && direccion.None?
    }

    /** The value this changeset supplies for a column, if any. */
    function Get(col: Column): Option<Value> {
      match col
      case Nombre => TextCell(nombre)
      case Apellido => TextCell(apellido)
      case FechaNacimiento => DayOf(fechaNacimiento)
      case Telefono => TextCell(telefono)
      case Email => TextCell(email)
      case Direccion => TextCell(direccion)
      case _ => None
    }

    /** The patient after the change: supplied columns take their new value, the rest keep theirs. */
    function ApplyTo(p: Paciente): (r: Paciente)
      ensures forall col :: Cell(PacienteRow(r), col) == if Get(col).Some? then Get(col) else Cell(PacienteRow(p), col)
    {
      Paciente(nombre.GetOr(p.nombre), apellido.GetOr(p.apellido), fechaNacimiento.GetOr(p.fechaNacimiento),
               if telefono.Some? then telefono else p.telefono,
               if email.Some? then email else p.email,
               if direccion.Some? then direccion else p.direccion)
    }
  }

  /** The builder's steps, in order, are exactly `Present` over the declared columns. */
  lemma PacienteSupplied(c: PacienteUpdate)
    ensures Present(PacienteColumns, c.Get) == [] + Assignment(Nombre, TextCell(c.nombre)) + Assignment(Apellido, TextCell(c.apellido)) + Assignment(FechaNacimiento, DayOf(c.fechaNacimiento)) + Assignment(Telefono, TextCell(c.telefono)) + Assignment(Email, TextCell(c.email)) + Assignment(Direccion, TextCell(c.direccion))
    ensures PresentValues(PacienteColumns, c.Get) == [] + Param(TextCell(c.nombre)) + Param(TextCell(c.apellido)) + Param(DayOf(c.fechaNacimiento)) + Param(TextCell(c.telefono)) + Param(TextCell(c.email)) + Param(TextCell(c.direccion))
  {
    assert c.Get(Nombre) == TextCell(c.nombre);
    assert c.Get(Apellido) == TextCell(c.apellido);
    assert c.Get(FechaNacimiento) == DayOf(c.fechaNacimiento);
    assert c.Get(Telefono) == TextCell(c.telefono);
    assert c.Get(Email) == TextCell(c.email);
    assert c.Get(Direccion) == TextCell(c.direccion);
    ghost var g := c.Get;
    assert PresentUpTo(PacienteColumns, 6, g) == PresentUpTo(PacienteColumns, 5, g) + Assignment(PacienteColumns[5], g(PacienteColumns[5]));
    assert ValuesUpTo(PacienteColumns, 6, g) == ValuesUpTo(PacienteColumns, 5, g) + Param(g(PacienteColumns[5]));
    assert PresentUpTo(PacienteColumns, 5, g) == PresentUpTo(PacienteColumns, 4, g) + Assignment(PacienteColumns[4], g(PacienteColumns[4]));
    assert ValuesUpTo(PacienteColumns, 5, g) == ValuesUpTo(PacienteColumns, 4, g) + Param(g(PacienteColumns[4]));
    assert PresentUpTo(PacienteColumns, 4, g) == PresentUpTo(PacienteColumns, 3, g) + Assignment(PacienteColumns[3], g(PacienteColumns[3]));
    assert ValuesUpTo(PacienteColumns, 4, g) == ValuesUpTo(PacienteColumns, 3, g) + Param(g(PacienteColumns[3]));
    assert PresentUpTo(PacienteColumns, 3, g) == PresentUpTo(PacienteColumns, 2, g) + Assignment(PacienteColumns[2], g(PacienteColumns[2]));
    assert ValuesUpTo(PacienteColumns, 3, g) == ValuesUpTo(PacienteColumns, 2, g) + Param(g(PacienteColumns[2]));
    assert PresentUpTo(PacienteColumns, 2, g) == PresentUpTo(PacienteColumns, 1, g) + Assignment(PacienteColumns[1], g(PacienteColumns[1]));
    assert ValuesUpTo(PacienteColumns, 2, g) == ValuesUpTo(PacienteColumns, 1, g) + Param(g(PacienteColumns[1]));
    assert PresentUpTo(PacienteColumns, 1, g) == PresentUpTo(PacienteColumns, 0, g) + Assignment(PacienteColumns[0], g(PacienteColumns[0]));
    assert ValuesUpTo(PacienteColumns, 1, g) == ValuesUpTo(PacienteColumns, 0, g) + Param(g(PacienteColumns[0]));
  }

  /** Nothing is assigned exactly when the changeset supplies no field. */
  lemma PacienteNothingSupplied(c: PacienteUpdate)
    ensures Present(PacienteColumns, c.Get) == [] <==> c.IsEmpty()
  {
    PacienteSupplied(c);
  }

  /** `actualizar_paciente` up to the statement: no statement at all when nothing is supplied. */
  method BuildPacienteUpdate(idPaciente: int, c: PacienteUpdate) returns (stmt: Option<Update>)
    ensures stmt.None? <==> c.IsEmpty()
    ensures stmt.Some? ==> stmt.value.table == PacienteTable
    ensures stmt.Some? ==> stmt.value.fields == Present(PacienteColumns, c.Get)
    ensures stmt.Some? ==> |stmt.value.params| == |stmt.value.fields| + 1
    ensures stmt.Some? ==> stmt.value.params[|stmt.value.fields|] == Id(idPaciente)
    ensures stmt.Some? ==> forall i :: 0 <= i < |stmt.value.fields| ==> c.Get(stmt.value.fields[i]) == Some(stmt.value.params[i])
  {
    var fields: seq<Column> := [];
    var params: seq<Value> := [];
    fields, params := AppendIfSupplied(fields, params, Nombre, TextCell(c.nombre));
    fields, params := AppendIfSupplied(fields, params, Apellido, TextCell(c.apellido));
    fields, params := AppendIfSupplied(fields, params, FechaNacimiento, DayOf(c.fechaNacimiento));
    fields, params := AppendIfSupplied(fields, params, Telefono, TextCell(c.telefono));
    fields, params := AppendIfSupplied(fields, params, Email, TextCell(c.email));
    fields, params := AppendIfSupplied(fields, params, Direccion, TextCell(c.direccion));
    PacienteSupplied(c);
    PacienteNothingSupplied(c);
    if fields == [] {
      return None;
    }
    PresentValuesMatch(PacienteColumns, c.Get);
    stmt := Some(Update(PacienteTable, fields, params + [Id(idPaciente)]));
  }

  // ---------------------------------------------------------------- Especialidad

  /** Declaration order of the updatable especialidad fields. */
  const EspecialidadColumns: seq<Column> := [Nombre, Descripcion]

  datatype EspecialidadUpdate = EspecialidadUpdate(
    nombre: Option<string>,
    descripcion: Option<string>)
  {
    predicate IsEmpty() {
      nombre.None? && descripcion.None?
    }

    /** The value this changeset supplies for a column, if any. */
    function Get(col: Column): Option<Value> {
      match col
      case Nombre => TextCell(nombre)
      case Descripcion => TextCell(descripcion)
      case _ => None
    }

    /** The especialidad after the change: supplied columns take their new value, the rest keep theirs. */
    function ApplyTo(e: Especialidad): (r: Especialidad)
      ensures forall col :: Cell(EspecialidadRow(r), col) == if Get(col).Some? then Get(col) else Cell(EspecialidadRow(e), col)
    {
      Especialidad(nombre.GetOr(e.nombre),
        if descripcion.Some? then descripcion else e.descripcion)
    }
  }

  /** The builder's steps, in order, are exactly `Present` over the declared columns. */
  lemma EspecialidadSupplied(c: EspecialidadUpdate)
    ensures Present(EspecialidadColumns, c.Get) == [] + Assignment(Nombre, TextCell(c.nombre)) + Assignment(Descripcion, TextCell(c.descripcion))
    ensures PresentValues(EspecialidadColumns, c.Get) == [] + Param(TextCell(c.nombre)) + Param(TextCell(c.descripcion))
  {
    assert c.Get(Nombre) == TextCell(c.nombre);
    assert c.Get(Descripcion) == TextCell(c.descripcion);
    ghost var g := c.Get;
    assert PresentUpTo(EspecialidadColumns, 2, g) == PresentUpTo(EspecialidadColumns, 1, g) + Assignment(EspecialidadColumns[1], g(EspecialidadColumns[1]));
    assert ValuesUpTo(EspecialidadColumns, 2, g) == ValuesUpTo(EspecialidadColumns, 1, g) + Param(g(EspecialidadColumns[1]));
    assert PresentUpTo(EspecialidadColumns, 1, g) == PresentUpTo(EspecialidadColumns, 0, g) + Assignment(EspecialidadColumns[0], g(EspecialidadColumns[0]));
    assert ValuesUpTo(EspecialidadColumns, 1, g) == ValuesUpTo(EspecialidadColumns, 0, g) + Param(g(EspecialidadColumns[0]));
  }

  /** Nothing is assigned exactly when the changeset supplies no field. */
  lemma EspecialidadNothingSupplied(c: EspecialidadUpdate)
    ensures Present(EspecialidadColumns, c.Get) == [] <==> c.IsEmpty()
  {
    EspecialidadSupplied(c);
  }

  /** `actualizar_especialidad` up to the statement: no statement at all when nothing is supplied. */
  method BuildEspecialidadUpdate(idEspecialidad: int, c: EspecialidadUpdate) returns (stmt: Option<Update>)
    ensures stmt.None? <==> c.IsEmpty()
    ensures stmt.Some? ==> stmt.value.table == EspecialidadTable
    ensures stmt.Some? ==> stmt.value.fields == Present(EspecialidadColumns, c.Get)
    ensures stmt.Some? ==> |stmt.value.params| == |stmt.value.fields| + 1
    ensures stmt.Some? ==> stmt.value.params[|stmt.value.fields|] == Id(idEspecialidad)
    ensures stmt.Some? ==> forall i :: 0 <= i < |stmt.value.fields| ==> c.Get(stmt.value.fields[i]) == Some(stmt.value.params[i])
  {
    var fields: seq<Column> := [];
    var params: seq<Value> := [];
    fields, params := AppendIfSupplied(fields, params, Nombre, TextCell(c.nombre));
    fields, params := AppendIfSupplied(fields, params, Descripcion, TextCell(c.descripcion));
    EspecialidadSupplied(c);
    EspecialidadNothingSupplied(c);
    if fields == [] {
      return None;
    }
    PresentValuesMatch(EspecialidadColumns, c.Get);
    stmt := Some(Update(EspecialidadTable, fields, params + [Id(idEspecialidad)]));
  }

  // ---------------------------------------------------------------- Doctor

  /** Declaration order of the updatable doctor fields. */
  const DoctorColumns: seq<Column> := [Nombre, Apellido, Telefono, Email, IdEspecialidad]

  datatype DoctorUpdate = DoctorUpdate(
    nombre: Option<string>,
    apellido: Option<string>,
    telefono: Option<string>,
    email: Option<string>,
    idEspecialidad: Option<int>)
  {
    predicate IsEmpty() {
      nombre.None? && apellido.None? && telefono.None? && email.None? && idEspecialidad.None?
    }

    /** The value this changeset supplies for a column, if any. */
    function Get(col: Column): Option<Value> {
      match col
      case Nombre => TextCell(nombre)
      case Apellido => TextCell(apellido)
      case Telefono => TextCell(telefono)
      case Email => TextCell(email)
      case IdEspecialidad => IdOf(idEspecialidad)
      case _ => None
    }

    /** The doctor after the change: supplied columns take their new value, the rest keep theirs. */
    function ApplyTo(d: Doctor): (r: Doctor)
      ensures forall col :: Cell(DoctorRow(r), col) == if Get(col).Some? then Get(col) else Cell(DoctorRow(d), col)
    {
      Doctor(nombre.GetOr(d.nombre),
        apellido.GetOr(d.apellido),
        if telefono.Some? then telefono else d.telefono,
        if email.Some? then email else d.email,
        idEspecialidad.GetOr(d.idEspecialidad))
    }
  }

  /** The builder's steps, in order, are exactly `Present` over the declared columns. */
  lemma DoctorSupplied(c: DoctorUpdate)
    ensures Present(DoctorColumns, c.Get) == [] + Assignment(Nombre, TextCell(c.nombre)) + Assignment(Apellido, TextCell(c.apellido)) + Assignment(Telefono, TextCell(c.telefono)) + Assignment(Email, TextCell(c.email)) + Assignment(IdEspecialidad, IdOf(c.idEspecialidad))
    ensures PresentValues(DoctorColumns, c.Get) == [] + Param(TextCell(c.nombre)) + Param(TextCell(c.apellido)) + Param(TextCell(c.telefono)) + Param(TextCell(c.email)) + Param(IdOf(c.idEspecialidad))
  {
    assert c.Get(Nombre) == TextCell(c.nombre);
    assert c.Get(Apellido) == TextCell(c.apellido);
    assert c.Get(Telefono) == TextCell(c.telefono);
    assert c.Get(Email) == TextCell(c.email);
    assert c.Get(IdEspecialidad) == IdOf(c.idEspecialidad);
    ghost var g := c.Get;
    assert PresentUpTo(DoctorColumns, 5, g) == PresentUpTo(DoctorColumns, 4, g) + Assignment(DoctorColumns[4], g(DoctorColumns[4]));
    assert ValuesUpTo(DoctorColumns, 5, g) == ValuesUpTo(DoctorColumns, 4, g) + Param(g(DoctorColumns[4]));
    assert PresentUpTo(DoctorColumns, 4, g) == PresentUpTo(DoctorColumns, 3, g) + Assignment(DoctorColumns[3], g(DoctorColumns[3]));
    assert ValuesUpTo(DoctorColumns, 4, g) == ValuesUpTo(DoctorColumns, 3, g) + Param(g(DoctorColumns[3]));
    assert PresentUpTo(DoctorColumns, 3, g) == PresentUpTo(DoctorColumns, 2, g) + Assignment(DoctorColumns[2], g(DoctorColumns[2]));
    assert ValuesUpTo(DoctorColumns, 3, g) == ValuesUpTo(DoctorColumns, 2, g) + Param(g(DoctorColumns[2]));
    assert PresentUpTo(DoctorColumns, 2, g) == PresentUpTo(DoctorColumns, 1, g) + Assignment(DoctorColumns[1], g(DoctorColumns[1]));
    assert ValuesUpTo(DoctorColumns, 2, g) == ValuesUpTo(DoctorColumns, 1, g) + Param(g(DoctorColumns[1]));
    assert PresentUpTo(DoctorColumns, 1, g) == PresentUpTo(DoctorColumns, 0, g) + Assignment(DoctorColumns[0], g(DoctorColumns[0]));
    assert ValuesUpTo(DoctorColumns, 1, g) == ValuesUpTo(DoctorColumns, 0, g) + Param(g(DoctorColumns[0]));
  }

  /** Nothing is assigned exactly when the changeset supplies no field. */
  lemma DoctorNothingSupplied(c: DoctorUpdate)
    ensures Present(DoctorColumns, c.Get) == [] <==> c.IsEmpty()
  {
    DoctorSupplied(c);
  }

  /** `actualizar_doctor` up to the statement: no statement at all when nothing is supplied. */
  method BuildDoctorUpdate(idDoctor: int, c: DoctorUpdate) returns (stmt: Option<Update>)
    ensures stmt.None? <==> c.IsEmpty()
    ensures stmt.Some? ==> stmt.value.table == DoctorTable
    ensures stmt.Some? ==> stmt.value.fields == Present(DoctorColumns, c.Get)
    ensures stmt.Some? ==> |stmt.value.params| == |stmt.value.fields| + 1
    ensures stmt.Some? ==> stmt.value.params[|stmt.value.fields|] == Id(idDoctor)
    ensures stmt.Some? ==> forall i :: 0 <= i < |stmt.value.fields| ==> c.Get(stmt.value.fields[i]) == Some(stmt.value.params[i])
  {
    var fields: seq<Column> := [];
    var params: seq<Value> := [];
    fields, params := AppendIfSupplied(fields, params, Nombre, TextCell(c.nombre));
    fields, params := AppendIfSupplied(fields, params, Apellido, TextCell(c.apellido));
    fields, params := AppendIfSupplied(fields, params, Telefono, TextCell(c.telefono));
    fields, params := AppendIfSupplied(fields, params, Email, TextCell(c.email));
    fields, params := AppendIfSupplied(fields, params, IdEspecialidad, IdOf(c.idEspecialidad));
    DoctorSupplied(c);
    DoctorNothingSupplied(c);
    if fields == [] {
      return None;
    }
    PresentValuesMatch(DoctorColumns, c.Get);
    stmt := Some(Update(DoctorTable, fields, params + [Id(idDoctor)]));
  }

  // ---------------------------------------------------------------- Historial

  /** Declaration order of the updatable historial fields. */
  const HistorialColumns: seq<Column> := [Fecha, Diagnostico, Tratamiento, Observaciones, IdDoctor]

  datatype HistorialUpdate = HistorialUpdate(
    fecha: Option<Date>,
    diagnostico: Option<string>,
    tratamiento: Option<string>,
    observaciones: Option<string>,
    idDoctor: Option<int>)
  {
    predicate IsEmpty() {
      fecha.None? && diagnostico.None? && tratamiento.None? && observaciones.None? && idDoctor.None?
    }

    /** The value this changeset supplies for a column, if any. */
    function Get(col: Column): Option<Value> {
      match col
      case Fecha => DayOf(fecha)
      case Diagnostico => TextCell(diagnostico)
      case Tratamiento => TextCell(tratamiento)
      case Observaciones => TextCell(observaciones)
      case IdDoctor => IdOf(idDoctor)
      case _ => None
    }

    /** The historial after the change: supplied columns take their new value, the rest keep theirs. */
    function ApplyTo(h: Historial): (r: Historial)
      ensures forall col :: Cell(HistorialRow(r), col) == if Get(col).Some? then Get(col) else Cell(HistorialRow(h), col)
    {
      Historial(fecha.GetOr(h.fecha),
        if diagnostico.Some? then diagnostico else h.diagnostico,
        if tratamiento.Some? then tratamiento else h.tratamiento,
        if observaciones.Some? then observaciones else h.observaciones,
        h.idPaciente,
        idDoctor.GetOr(h.idDoctor))
    }
  }

  /** The builder's steps, in order, are exactly `Present` over the declared columns. */
  lemma HistorialSupplied(c: HistorialUpdate)
    ensures Present(HistorialColumns, c.Get) == [] + Assignment(Fecha, DayOf(c.fecha)) + Assignment(Diagnostico, TextCell(c.diagnostico)) + Assignment(Tratamiento, TextCell(c.tratamiento)) + Assignment(Observaciones, TextCell(c.observaciones)) + Assignment(IdDoctor, IdOf(c.idDoctor))
    ensures PresentValues(HistorialColumns, c.Get) == [] + Param(DayOf(c.fecha)) + Param(TextCell(c.diagnostico)) + Param(TextCell(c.tratamiento)) + Param(TextCell(c.observaciones)) + Param(IdOf(c.idDoctor))
  {
    assert c.Get(Fecha) == DayOf(c.fecha);
    assert c.Get(Diagnostico) == TextCell(c.diagnostico);
    assert c.Get(Tratamiento) == TextCell(c.tratamiento);
    assert c.Get(Observaciones) == TextCell(c.observaciones);
    assert c.Get(IdDoctor) == IdOf(c.idDoctor);
    ghost var g := c.Get;
    assert PresentUpTo(HistorialColumns, 5, g) == PresentUpTo(HistorialColumns, 4, g) + Assignment(HistorialColumns[4], g(HistorialColumns[4]));
    assert ValuesUpTo(HistorialColumns, 5, g) == ValuesUpTo(HistorialColumns, 4, g) + Param(g(HistorialColumns[4]));
    assert PresentUpTo(HistorialColumns, 4, g) == PresentUpTo(HistorialColumns, 3, g) + Assignment(HistorialColumns[3], g(HistorialColumns[3]));
    assert ValuesUpTo(HistorialColumns, 4, g) == ValuesUpTo(HistorialColumns, 3, g) + Param(g(HistorialColumns[3]));
    assert PresentUpTo(HistorialColumns, 3, g) == PresentUpTo(HistorialColumns, 2, g) + Assignment(HistorialColumns[2], g(HistorialColumns[2]));
    assert ValuesUpTo(HistorialColumns, 3, g) == ValuesUpTo(HistorialColumns, 2, g) + Param(g(HistorialColumns[2]));
    assert PresentUpTo(HistorialColumns, 2, g) == PresentUpTo(HistorialColumns, 1, g) + Assignment(HistorialColumns[1], g(HistorialColumns[1]));
    assert ValuesUpTo(HistorialColumns, 2, g) == ValuesUpTo(HistorialColumns, 1, g) + Param(g(HistorialColumns[1]));
    assert PresentUpTo(HistorialColumns, 1, g) == PresentUpTo(HistorialColumns, 0, g) + Assignment(HistorialColumns[0], g(HistorialColumns[0]));
    assert ValuesUpTo(HistorialColumns, 1, g) == ValuesUpTo(HistorialColumns, 0, g) + Param(g(HistorialColumns[0]));
  }

  /** Nothing is assigned exactly when the changeset supplies no field. */
  lemma HistorialNothingSupplied(c: HistorialUpdate)
    ensures Present(HistorialColumns, c.Get) == [] <==> c.IsEmpty()
  {
    HistorialSupplied(c);
  }

  /** `actualizar_historial` up to the statement: no statement at all when nothing is supplied. */
  method BuildHistorialUpdate(idHistorial: int, c: HistorialUpdate) returns (stmt: Option<Update>)
    ensures stmt.None? <==> c.IsEmpty()
    ensures stmt.Some? ==> stmt.value.table == HistorialTable
    ensures stmt.Some? ==> stmt.value.fields == Present(HistorialColumns, c.Get)
    ensures stmt.Some? ==> |stmt.value.params| == |stmt.value.fields| + 1
    ensures stmt.Some? ==> stmt.value.params[|stmt.value.fields|] == Id(idHistorial)
    ensures stmt.Some? ==> forall i :: 0 <= i < |stmt.value.fields| ==> c.Get(stmt.value.fields[i]) == Some(stmt.value.params[i])
  {
    var fields: seq<Column> := [];
    var params: seq<Value> := [];
    fields, params := AppendIfSupplied(fields, params, Fecha, DayOf(c.fecha));
    fields, params := AppendIfSupplied(fields, params, Diagnostico, TextCell(c.diagnostico));
    fields, params := AppendIfSupplied(fields, params, Tratamiento, TextCell(c.tratamiento));
    fields, params := AppendIfSupplied(fields, params, Observaciones, TextCell(c.observaciones));
    fields, params := AppendIfSupplied(fields, params, IdDoctor, IdOf(c.idDoctor));
    HistorialSupplied(c);
    HistorialNothingSupplied(c);
    if fields == [] {
      return None;
    }
    PresentValuesMatch(HistorialColumns, c.Get);
    stmt := Some(Update(HistorialTable, fields, params + [Id(idHistorial)]));
  }

  // ---------------------------------------------------------------- Cita

  /** Declaration order of the updatable cita fields. */
  const CitaColumns: seq<Column> := [FechaHora, Motivo, IdDoctor]

  datatype CitaUpdate = CitaUpdate(
    fechaHora: Option<DateTime>,
    motivo: Option<string>,
    idDoctor: Option<int>)
  {
    predicate IsEmpty() {
      fechaHora.None? && motivo.None? && idDoctor.None?
    }

    /** The value this changeset supplies for a column, if any. */
    function Get(col: Column): Option<Value> {
      match col
      case FechaHora => MomentOf(fechaHora)
      case Motivo => TextCell(motivo)
      case IdDoctor => IdOf(idDoctor)
      case _ => None
    }

    /** The cita after the change: supplied columns take their new value, the rest keep theirs. */
    function ApplyTo(ci: Cita): (r: Cita)
      ensures forall col :: Cell(CitaRow(r), col) == if Get(col).Some? then Get(col) else Cell(CitaRow(ci), col)
    {
      Cita(fechaHora.GetOr(ci.fechaHora),
        if motivo.Some? then motivo else ci.motivo,
        ci.idPaciente,
        idDoctor.GetOr(ci.idDoctor))
    }
  }

  /** The builder's steps, in order, are exactly `Present` over the declared columns. */
  lemma CitaSupplied(c: CitaUpdate)
    ensures Present(CitaColumns, c.Get) == [] + Assignment(FechaHora, MomentOf(c.fechaHora)) + Assignment(Motivo, TextCell(c.motivo)) + Assignment(IdDoctor, IdOf(c.idDoctor))
    ensures PresentValues(CitaColumns, c.Get) == [] + Param(MomentOf(c.fechaHora)) + Param(TextCell(c.motivo)) + Param(IdOf(c.idDoctor))
  {
    assert c.Get(FechaHora) == MomentOf(c.fechaHora);
    assert c.Get(Motivo) == TextCell(c.motivo);
    assert c.Get(IdDoctor) == IdOf(c.idDoctor);
    ghost var g := c.Get;
    assert PresentUpTo(CitaColumns, 3, g) == PresentUpTo(CitaColumns, 2, g) + Assignment(CitaColumns[2], g(CitaColumns[2]));
    assert ValuesUpTo(CitaColumns, 3, g) == ValuesUpTo(CitaColumns, 2, g) + Param(g(CitaColumns[2]));
    assert PresentUpTo(CitaColumns, 2, g) == PresentUpTo(CitaColumns, 1, g) + Assignment(CitaColumns[1], g(CitaColumns[1]));
    assert ValuesUpTo(CitaColumns, 2, g) == ValuesUpTo(CitaColumns, 1, g) + Param(g(CitaColumns[1]));
    assert PresentUpTo(CitaColumns, 1, g) == PresentUpTo(CitaColumns, 0, g) + Assignment(CitaColumns[0], g(CitaColumns[0]));
    assert ValuesUpTo(CitaColumns, 1, g) == ValuesUpTo(CitaColumns, 0, g) + Param(g(CitaColumns[0]));
  }

  /** Nothing is assigned exactly when the changeset supplies no field. */
  lemma CitaNothingSupplied(c: CitaUpdate)
    ensures Present(CitaColumns, c.Get) == [] <==> c.IsEmpty()
  {
    CitaSupplied(c);
  }

  /** `actualizar_cita` up to the statement: no statement at all when nothing is supplied. */
  method BuildCitaUpdate(idCita: int, c: CitaUpdate) returns (stmt: Option<Update>)
    ensures stmt.None? <==> c.IsEmpty()
    ensures stmt.Some? ==> stmt.value.table == CitaTable
    ensures stmt.Some? ==> stmt.value.fields == Present(CitaColumns, c.Get)
    ensures stmt.Some? ==> |stmt.value.params| == |stmt.value.fields| + 1
    ensures stmt.Some? ==> stmt.value.params[|stmt.value.fields|] == Id(idCita)
    ensures stmt.Some? ==> forall i :: 0 <= i < |stmt.value.fields| ==> c.Get(stmt.value.fields[i]) == Some(stmt.value.params[i])
  {
    var fields: seq<Column> := [];
    var params: seq<Value> := [];
    fields, params := AppendIfSupplied(fields, params, FechaHora, MomentOf(c.fechaHora));
    fields, params := AppendIfSupplied(fields, params, Motivo, TextCell(c.motivo));
    fields, params := AppendIfSupplied(fields, params, IdDoctor, IdOf(c.idDoctor));
    CitaSupplied(c);
    CitaNothingSupplied(c);
    if fields == [] {
      return None;
    }
    PresentValuesMatch(CitaColumns, c.Get);
    stmt := Some(Update(CitaTable, fields, params + [Id(idCita)]));
  }

  // ------------------------------------------------ applying a built update

  /**
   * A SET clause built from a changeset, run against a row, yields the row
   * `target` whose supplied columns hold the new values and whose other
   * columns are untouched.
   */
  lemma BuiltAssignmentYields(row: Row, cols: seq<Column>, get: Column -> Option<Value>,
                              fields: seq<Column>, params: seq<Value>, target: Row)
    requires Distinct(cols)
    requires fields == Present(cols, get) && |params| == |fields|
    requires forall i :: 0 <= i < |fields| ==> get(fields[i]) == Some(params[i])
    requires forall col :: get(col).Some? ==> col in cols && Fits(TableOf(row), col, get(col).value)
    requires TableOf(target) == TableOf(row)
    requires forall col :: Cell(target, col) == if get(col).Some? then get(col) else Cell(row, col)
    ensures Assign(row, fields, params) == Some(target)
  {
    PresentColumns(cols, get);
    AssignCells(row, fields, params);
    var r := Assign(row, fields, params).value;
    forall col ensures Cell(r, col) == Cell(target, col) {
      if col in fields {
        var i :| 0 <= i < |fields| && fields[i] == col;
      }
    }
    CellsDetermineRow(r, target);
  }

  /** The statement built for a paciente changeset updates a paciente row to exactly `ApplyTo`. */
  lemma PacienteUpdateYields(p: Paciente, c: PacienteUpdate, fields: seq<Column>, params: seq<Value>)
    requires fields == Present(PacienteColumns, c.Get)
    requires |params| == |fields|
    requires forall i :: 0 <= i < |fields| ==> c.Get(fields[i]) == Some(params[i])
    ensures Assign(PacienteRow(p), fields, params) == Some(PacienteRow(c.ApplyTo(p)))
  {
    BuiltAssignmentYields(PacienteRow(p), PacienteColumns, c.Get, fields, params, PacienteRow(c.ApplyTo(p)));
  }

  /** The statement built for a especialidad changeset updates a especialidad row to exactly `ApplyTo`. */
  lemma EspecialidadUpdateYields(e: Especialidad, c: EspecialidadUpdate, fields: seq<Column>, params: seq<Value>)
    requires fields == Present(EspecialidadColumns, c.Get)
    requires |params| == |fields|
    requires forall i :: 0 <= i < |fields| ==> c.Get(fields[i]) == Some(params[i])
    ensures Assign(EspecialidadRow(e), fields, params) == Some(EspecialidadRow(c.ApplyTo(e)))
  {
    BuiltAssignmentYields(EspecialidadRow(e), EspecialidadColumns, c.Get, fields, params, EspecialidadRow(c.ApplyTo(e)));
  }

  /** The statement built for a doctor changeset updates a doctor row to exactly `ApplyTo`. */
  lemma DoctorUpdateYields(d: Doctor, c: DoctorUpdate, fields: seq<Column>, params: seq<Value>)
    requires fields == Present(DoctorColumns, c.Get)
    requires |params| == |fields|
    requires forall i :: 0 <= i < |fields| ==> c.Get(fields[i]) == Some(params[i])
    ensures Assign(DoctorRow(d), fields, params) == Some(DoctorRow(c.ApplyTo(d)))
  {
    BuiltAssignmentYields(DoctorRow(d), DoctorColumns, c.Get, fields, params, DoctorRow(c.ApplyTo(d)));
  }

  /** The statement built for a historial changeset updates a historial row to exactly `ApplyTo`. */
  lemma HistorialUpdateYields(h: Historial, c: HistorialUpdate, fields: seq<Column>, params: seq<Value>)
    requires fields == Present(HistorialColumns, c.Get)
    requires |params| == |fields|
    requires forall i :: 0 <= i < |fields| ==> c.Get(fields[i]) == Some(params[i])
    ensures Assign(HistorialRow(h), fields, params) == Some(HistorialRow(c.ApplyTo(h)))
  {
    BuiltAssignmentYields(HistorialRow(h), HistorialColumns, c.Get, fields, params, HistorialRow(c.ApplyTo(h)));
  }

  /** The statement built for a cita changeset updates a cita row to exactly `ApplyTo`. */
  lemma CitaUpdateYields(ci: Cita, c: CitaUpdate, fields: seq<Column>, params: seq<Value>)
    requires fields == Present(CitaColumns, c.Get)
    requires |params| == |fields|
    requires forall i :: 0 <= i < |fields| ==> c.Get(fields[i]) == Some(params[i])
    ensures Assign(CitaRow(ci), fields, params) == Some(CitaRow(c.ApplyTo(ci)))
  {
    BuiltAssignmentYields(CitaRow(ci), CitaColumns, c.Get, fields, params, CitaRow(c.ApplyTo(ci)));
  }
}
