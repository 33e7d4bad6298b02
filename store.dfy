/**
 * The clinic's database as the CRUD layer sees it: five tables keyed by
 * AUTO_INCREMENT identifiers, with the foreign keys of the schema, reached
 * through a gateway that either runs a statement or reports failure
 * (`None`).  `online` stands for whether the gateway's connection to the
 * server succeeds during the call.
 */
module Store {
  import opened Wrappers
  import opened Records
  import opened Changesets
  import opened Ordering

  /** `d.*, e.nombre AS especialidad_nombre`: a doctor joined with its specialty. */
  datatype DoctorView = DoctorView(id: int, doctor: Doctor, especialidadNombre: string)

  /** A medical record joined with the names of its patient and its doctor. */
  datatype HistorialView = HistorialView(
    id: int,
    historial: Historial,
    pacienteNombre: string,
    pacienteApellido: string,
    doctorNombre: string,
    doctorApellido: string)

  /** An appointment joined with its patient, its doctor and the doctor's specialty. */
  datatype CitaView = CitaView(
    id: int,
    cita: Cita,
    pacienteNombre: string,
    pacienteApellido: string,
    doctorNombre: string,
    doctorApellido: string,
    especialidadNombre: string)

  function JoinDoctor(especialidades: map<int, Especialidad>, id: int, d: Doctor): Option<DoctorView> {
    if d.idEspecialidad in especialidades then
      Some(DoctorView(id, d, especialidades[d.idEspecialidad].nombre))
    else None
  }

  function JoinHistorial(pacientes: map<int, Paciente>, doctores: map<int, Doctor>, id: int, h: Historial): Option<HistorialView> {
    if h.idPaciente in pacientes && h.idDoctor in doctores then
      var p, d := pacientes[h.idPaciente], doctores[h.idDoctor];
      Some(HistorialView(id, h, p.nombre, p.apellido, d.nombre, d.apellido))
    else None
  }

  function JoinCita(pacientes: map<int, Paciente>, doctores: map<int, Doctor>, especialidades: map<int, Especialidad>,
                    id: int, c: Cita): Option<CitaView> {
    if c.idPaciente in pacientes && c.idDoctor in doctores && doctores[c.idDoctor].idEspecialidad in especialidades then
      var p, d := pacientes[c.idPaciente], doctores[c.idDoctor];
      Some(CitaView(id, c, p.nombre, p.apellido, d.nombre, d.apellido, especialidades[d.idEspecialidad].nombre))
    else None
  }

  /** The appointments `1..n` whose joins succeed and pass `keep`, each once, in date-and-time order. */
  function SelectCitas(pacientes: map<int, Paciente>, doctores: map<int, Doctor>, especialidades: map<int, Especialidad>,
                       citas: map<int, Cita>, n: int, keep: CitaView -> bool): (r: seq<CitaView>)
    ensures forall i :: 0 <= i < |r| ==>
              keep(r[i]) && 1 <= r[i].id <= n && r[i].id in citas &&
              JoinCita(pacientes, doctores, especialidades, r[i].id, citas[r[i].id]) == Some(r[i])
    ensures forall id ::
              (1 <= id <= n && id in citas && JoinCita(pacientes, doctores, especialidades, id, citas[id]).Some? &&
               keep(JoinCita(pacientes, doctores, especialidades, id, citas[id]).value)) ==>
              JoinCita(pacientes, doctores, especialidades, id, citas[id]).value in r
    ensures SortedBy(r, CitaKey)
    ensures forall i, j :: 0 <= i < j < |r| ==> r[i].id != r[j].id
  {
    Select(citas, n, (id, c) => JoinCita(pacientes, doctores, especialidades, id, c), (v: CitaView) => v.id, keep, CitaKey)
  }

  /** `ORDER BY apellido, nombre`. */
  function PacienteKey(x: (int, Paciente)): seq<int> { NameKey(x.1.apellido, x.1.nombre) }

  /** `ORDER BY nombre`. */
  function EspecialidadKey(x: (int, Especialidad)): seq<int> { Ords(x.1.nombre) }

  /** `ORDER BY d.apellido, d.nombre`. */
  function DoctorKey(v: DoctorView): seq<int> { NameKey(v.doctor.apellido, v.doctor.nombre) }

  /** `ORDER BY h.fecha DESC`: the date, negated. */
  function HistorialKey(v: HistorialView): seq<int> {
    var f := v.historial.fecha;
    [-f.year, -f.month, -f.day]
  }

  /** `ORDER BY c.fecha_hora`. */
  function CitaKey(v: CitaView): seq<int> {
    var t := v.cita.fechaHora;
    [t.date.year, t.date.month, t.date.day, t.time.hour, t.time.minute, t.time.second]
  }

  /** The whole content of the database at one moment. */
  datatype Snapshot = Snapshot(
    pacientes: map<int, Paciente>,
    especialidades: map<int, Especialidad>,
    doctores: map<int, Doctor>,
    historiales: map<int, Historial>,
    citas: map<int, Cita>,
    nextPaciente: int,
    nextEspecialidad: int,
    nextDoctor: int,
    nextHistorial: int,
    nextCita: int)

  /** What an UPDATE statement does: fail, match no row, or replace one row. */
  datatype UpdateEffect = Rejected | NoRow | Replaced(id: int, row: Row)

  /** The database after an UPDATE with the given effect. */
  function Applied(s: Snapshot, e: UpdateEffect): Snapshot {
    match e
    case Replaced(id, PacienteRow(p)) => s.(pacientes := s.pacientes[id := p])
    case Replaced(id, EspecialidadRow(x)) => s.(especialidades := s.especialidades[id := x])
    case Replaced(id, DoctorRow(d)) => s.(doctores := s.doctores[id := d])
    case Replaced(id, HistorialRow(h)) => s.(historiales := s.historiales[id := h])
    case Replaced(id, CitaRow(c)) => s.(citas := s.citas[id := c])
    case _ => s
  }

  /** The foreign keys of a row name existing rows of `s`. */
  predicate ReferencesExist(s: Snapshot, row: Row) {
    match row
    case DoctorRow(d) => d.idEspecialidad in s.especialidades
    case HistorialRow(h) => h.idPaciente in s.pacientes && h.idDoctor in s.doctores
    case CitaRow(c) => c.idPaciente in s.pacientes && c.idDoctor in s.doctores
    case _ => true
  }

  /** The row of a table with a given identifier. */
  function Lookup(s: Snapshot, t: Table, id: int): (r: Option<Row>)
    ensures r.Some? ==> TableOf(r.value) == t
  {
    match t
    case PacienteTable => if id in s.pacientes then Some(PacienteRow(s.pacientes[id])) else None
    case EspecialidadTable => if id in s.especialidades then Some(EspecialidadRow(s.especialidades[id])) else None
    case DoctorTable => if id in s.doctores then Some(DoctorRow(s.doctores[id])) else None
    case HistorialTable => if id in s.historiales then Some(HistorialRow(s.historiales[id])) else None
    case CitaTable => if id in s.citas then Some(CitaRow(s.citas[id])) else None
  }

  /** Identifiers are positive and below their counter, and every foreign key names an existing row. */
  ghost predicate Consistent(s: Snapshot) {
    && 1 <= s.nextPaciente && 1 <= s.nextEspecialidad && 1 <= s.nextDoctor && 1 <= s.nextHistorial && 1 <= s.nextCita
    && (forall id :: id in s.pacientes ==> 1 <= id < s.nextPaciente)
    && (forall id :: id in s.especialidades ==> 1 <= id < s.nextEspecialidad)
    && (forall id :: id in s.doctores ==> 1 <= id < s.nextDoctor)
    && (forall id :: id in s.historiales ==> 1 <= id < s.nextHistorial)
    && (forall id :: id in s.citas ==> 1 <= id < s.nextCita)
    && (forall id :: id in s.doctores ==> s.doctores[id].idEspecialidad in s.especialidades)
    && (forall id :: id in s.historiales ==> s.historiales[id].idPaciente in s.pacientes && s.historiales[id].idDoctor in s.doctores)
    && (forall id :: id in s.citas ==> s.citas[id].idPaciente in s.pacientes && s.citas[id].idDoctor in s.doctores)
  }

  /**
   * `UPDATE table SET fields WHERE id = last parameter` run on `s`: no row
   * matched, the matched row replaced by its assigned version, or a
   * rejection when the statement is malformed or the new row breaks a
   * foreign key.
   */
  function EffectOn(s: Snapshot, stmt: Update): (e: UpdateEffect)
    ensures e.Replaced? ==> |stmt.params| == |stmt.fields| + 1 && stmt.params[|stmt.fields|] == Id(e.id)
    ensures e.Replaced? ==> Lookup(s, stmt.table, e.id).Some? && TableOf(e.row) == stmt.table && ReferencesExist(s, e.row)
  {
    if |stmt.params| != |stmt.fields| + 1 || !stmt.params[|stmt.fields|].Id? then Rejected
    else
      var id := stmt.params[|stmt.fields|].id;
      match Lookup(s, stmt.table, id)
      case None => NoRow
      case Some(current) =>
        AssignKeepsTable(current, stmt.fields, stmt.params[..|stmt.fields|]);
        var updated := Assign(current, stmt.fields, stmt.params[..|stmt.fields|]);
        if updated.None? || !ReferencesExist(s, updated.value) then Rejected
        else Replaced(id, updated.value)
  }

  /** The statement built for a paciente changeset replaces the row by `ApplyTo` when the row exists, and is never refused. */
  lemma PacienteUpdateEffect(s: Snapshot, idPaciente: int, c: PacienteUpdate, u: Update)
    requires u.table == PacienteTable && u.fields == Present(PacienteColumns, c.Get)
    requires |u.params| == |u.fields| + 1 && u.params[|u.fields|] == Id(idPaciente)
    requires forall i :: 0 <= i < |u.fields| ==> c.Get(u.fields[i]) == Some(u.params[i])
    ensures !EffectOn(s, u).Rejected?
    ensures Applied(s, EffectOn(s, u)) == if idPaciente in s.pacientes then s.(pacientes := s.pacientes[idPaciente := c.ApplyTo(s.pacientes[idPaciente])]) else s
  {
    if idPaciente in s.pacientes {
      PacienteUpdateYields(s.pacientes[idPaciente], c, u.fields, u.params[..|u.fields|]);
    }
  }

  /** The statement built for a especialidad changeset replaces the row by `ApplyTo` when the row exists, and is never refused. */
  lemma EspecialidadUpdateEffect(s: Snapshot, idEspecialidad: int, c: EspecialidadUpdate, u: Update)
    requires u.table == EspecialidadTable && u.fields == Present(EspecialidadColumns, c.Get)
    requires |u.params| == |u.fields| + 1 && u.params[|u.fields|] == Id(idEspecialidad)
    requires forall i :: 0 <= i < |u.fields| ==> c.Get(u.fields[i]) == Some(u.params[i])
    ensures !EffectOn(s, u).Rejected?
    ensures Applied(s, EffectOn(s, u)) == if idEspecialidad in s.especialidades then s.(especialidades := s.especialidades[idEspecialidad := c.ApplyTo(s.especialidades[idEspecialidad])]) else s
  {
    if idEspecialidad in s.especialidades {
      EspecialidadUpdateYields(s.especialidades[idEspecialidad], c, u.fields, u.params[..|u.fields|]);
    }
  }

  /** The statement built for a doctor changeset replaces the row by `ApplyTo` when the row exists, and is refused exactly when the new `idEspecialidad` names no row. */
  lemma DoctorUpdateEffect(s: Snapshot, idDoctor: int, c: DoctorUpdate, u: Update)
    requires u.table == DoctorTable && u.fields == Present(DoctorColumns, c.Get)
    requires |u.params| == |u.fields| + 1 && u.params[|u.fields|] == Id(idDoctor)
    requires forall i :: 0 <= i < |u.fields| ==> c.Get(u.fields[i]) == Some(u.params[i])
    ensures EffectOn(s, u).Rejected? <==> idDoctor in s.doctores && c.ApplyTo(s.doctores[idDoctor]).idEspecialidad !in s.especialidades
    ensures !EffectOn(s, u).Rejected? ==>
              Applied(s, EffectOn(s, u)) == if idDoctor in s.doctores then s.(doctores := s.doctores[idDoctor := c.ApplyTo(s.doctores[idDoctor])]) else s
  {
    if idDoctor in s.doctores {
      DoctorUpdateYields(s.doctores[idDoctor], c, u.fields, u.params[..|u.fields|]);
    }
  }

  /** The statement built for a historial changeset replaces the row by `ApplyTo` when the row exists, and is refused exactly when the new `idDoctor` names no row. */
  lemma HistorialUpdateEffect(s: Snapshot, idHistorial: int, c: HistorialUpdate, u: Update)
    requires Consistent(s)
    requires u.table == HistorialTable && u.fields == Present(HistorialColumns, c.Get)
    requires |u.params| == |u.fields| + 1 && u.params[|u.fields|] == Id(idHistorial)
    requires forall i :: 0 <= i < |u.fields| ==> c.Get(u.fields[i]) == Some(u.params[i])
    ensures EffectOn(s, u).Rejected? <==> idHistorial in s.historiales && c.ApplyTo(s.historiales[idHistorial]).idDoctor !in s.doctores
    ensures !EffectOn(s, u).Rejected? ==>
              Applied(s, EffectOn(s, u)) == if idHistorial in s.historiales then s.(historiales := s.historiales[idHistorial := c.ApplyTo(s.historiales[idHistorial])]) else s
  {
    if idHistorial in s.historiales {
      HistorialUpdateYields(s.historiales[idHistorial], c, u.fields, u.params[..|u.fields|]);
    }
  }

  /** The statement built for a cita changeset replaces the row by `ApplyTo` when the row exists, and is refused exactly when the new `idDoctor` names no row. */
  lemma CitaUpdateEffect(s: Snapshot, idCita: int, c: CitaUpdate, u: Update)
    requires Consistent(s)
    requires u.table == CitaTable && u.fields == Present(CitaColumns, c.Get)
    requires |u.params| == |u.fields| + 1 && u.params[|u.fields|] == Id(idCita)
    requires forall i :: 0 <= i < |u.fields| ==> c.Get(u.fields[i]) == Some(u.params[i])
    ensures EffectOn(s, u).Rejected? <==> idCita in s.citas && c.ApplyTo(s.citas[idCita]).idDoctor !in s.doctores
    ensures !EffectOn(s, u).Rejected? ==>
              Applied(s, EffectOn(s, u)) == if idCita in s.citas then s.(citas := s.citas[idCita := c.ApplyTo(s.citas[idCita])]) else s
  {
    if idCita in s.citas {
      CitaUpdateYields(s.citas[idCita], c, u.fields, u.params[..|u.fields|]);
    }
  }

  /** Replacing an existing row by one whose foreign keys hold keeps the database consistent. */
  lemma ReplacementKeepsConsistency(s: Snapshot, id: int, row: Row)
    requires Consistent(s)
    requires Lookup(s, TableOf(row), id).Some? && ReferencesExist(s, row)
    ensures Consistent(Applied(s, Replaced(id, row)))
  {
    match row
    case PacienteRow(p) => ReplacePacienteKeepsConsistency(s, id, p);
    case EspecialidadRow(x) => ReplaceEspecialidadKeepsConsistency(s, id, x);
    case DoctorRow(d) => ReplaceDoctorKeepsConsistency(s, id, d);
    case HistorialRow(h) => ReplaceHistorialKeepsConsistency(s, id, h);
    case CitaRow(c) => ReplaceCitaKeepsConsistency(s, id, c);
  }

  lemma ReplacePacienteKeepsConsistency(s: Snapshot, id: int, p: Paciente)
    requires Consistent(s) && id in s.pacientes
    ensures Consistent(s.(pacientes := s.pacientes[id := p]))
  {
    assert s.pacientes[id := p].Keys == s.pacientes.Keys;
  }

  lemma ReplaceEspecialidadKeepsConsistency(s: Snapshot, id: int, x: Especialidad)
    requires Consistent(s) && id in s.especialidades
    ensures Consistent(s.(especialidades := s.especialidades[id := x]))
  {
    assert s.especialidades[id := x].Keys == s.especialidades.Keys;
  }

  lemma ReplaceDoctorKeepsConsistency(s: Snapshot, id: int, d: Doctor)
    requires Consistent(s) && id in s.doctores && d.idEspecialidad in s.especialidades
    ensures Consistent(s.(doctores := s.doctores[id := d]))
  {
    assert s.doctores[id := d].Keys == s.doctores.Keys;
  }

  lemma ReplaceHistorialKeepsConsistency(s: Snapshot, id: int, h: Historial)
    requires Consistent(s) && id in s.historiales && h.idPaciente in s.pacientes && h.idDoctor in s.doctores
    ensures Consistent(s.(historiales := s.historiales[id := h]))
  {
  }

  lemma ReplaceCitaKeepsConsistency(s: Snapshot, id: int, c: Cita)
    requires Consistent(s) && id in s.citas && c.idPaciente in s.pacientes && c.idDoctor in s.doctores
    ensures Consistent(s.(citas := s.citas[id := c]))
  {
  }

  /** Inserting a historial whose foreign keys hold, under the next identifier, keeps the database consistent. */
  lemma InsertHistorialKeepsConsistency(s: Snapshot, h: Historial)
    requires Consistent(s) && h.idPaciente in s.pacientes && h.idDoctor in s.doctores
    ensures Consistent(s.(historiales := s.historiales[s.nextHistorial := h], nextHistorial := s.nextHistorial + 1))
  {
  }

  /** Inserting a cita whose foreign keys hold, under the next identifier, keeps the database consistent. */
  lemma InsertCitaKeepsConsistency(s: Snapshot, c: Cita)
    requires Consistent(s) && c.idPaciente in s.pacientes && c.idDoctor in s.doctores
    ensures Consistent(s.(citas := s.citas[s.nextCita := c], nextCita := s.nextCita + 1))
  {
  }

  class Clinic {
    var pacientes: map<int, Paciente>
    var especialidades: map<int, Especialidad>
    var doctores: map<int, Doctor>
    var historiales: map<int, Historial>
    var citas: map<int, Cita>
    /** AUTO_INCREMENT counters: the identifier the next insert into each table receives. */
    var nextPaciente: int
    var nextEspecialidad: int
    var nextDoctor: int
    var nextHistorial: int
    var nextCita: int

    function State(): Snapshot
      reads this
    {
      Snapshot(pacientes, especialidades, doctores, historiales, citas,
               nextPaciente, nextEspecialidad, nextDoctor, nextHistorial, nextCita)
    }

    ghost predicate Valid()
      reads this
    {
      Consistent(State())
    }

    /** An empty database. */
    constructor ()
      ensures Valid()
      ensures State() == Snapshot(map[], map[], map[], map[], map[], 1, 1, 1, 1, 1)
    {
      pacientes, especialidades, doctores, historiales, citas := map[], map[], map[], map[], map[];
      nextPaciente, nextEspecialidad, nextDoctor, nextHistorial, nextCita := 1, 1, 1, 1, 1;
    }

    // ------------------------------------------------------------ the gateway

    /**
     * `execute_query` for an UPDATE: `None` when the connection fails or the
     * server rejects the statement, otherwise the cursor's `lastrowid`,
     * which is 0 for an UPDATE whether or not a row matched.
     */
    method ExecuteUpdate(stmt: Update, online: bool) returns (r: Option<int>)
      requires Valid()
      modifies this
      ensures Valid()
      ensures r.Some? <==> online && !EffectOn(old(State()), stmt).Rejected?
      ensures r.Some? ==> r.value == 0
      ensures State() == if r.Some? then Applied(old(State()), EffectOn(old(State()), stmt)) else old(State())
    {
      var e := EffectOn(State(), stmt);
      if !online || e.Rejected? {
        return None;
      }
      if e.Replaced? {
        ReplacementKeepsConsistency(State(), e.id, e.row);
      }
      var next := Applied(State(), e);
      assert Consistent(next);
      Install(next);
      r := Some(0);
    }

    /** Makes `s` the content of the database. */
    method Install(s: Snapshot)
      modifies this
      ensures State() == s
    {
      pacientes, especialidades, doctores, historiales, citas := s.pacientes, s.especialidades, s.doctores, s.historiales, s.citas;
      nextPaciente, nextEspecialidad, nextDoctor, nextHistorial, nextCita := s.nextPaciente, s.nextEspecialidad, s.nextDoctor, s.nextHistorial, s.nextCita;
    }

    // ------------------------------------------------------------ Paciente

    /** `crear_paciente`: the new patient receives the next identifier. */
    method CrearPaciente(p: Paciente, online: bool) returns (id: Option<int>)
      requires Valid()
      modifies this
      ensures Valid()
      ensures id.Some? <==> online
      ensures id.Some? ==> id.value == old(nextPaciente) && id.value !in old(pacientes)
      ensures State() == if id.Some? then old(State()).(pacientes := old(pacientes)[id.value := p], nextPaciente := old(nextPaciente) + 1)
                         else old(State())
      ensures id.Some? ==> ObtenerPaciente(id.value, true) == Some(p)
    {
      if !online {
        return None;
      }
      id := Some(nextPaciente);
      pacientes := pacientes[nextPaciente := p];
      nextPaciente := nextPaciente + 1;
    }

    /** `obtener_paciente`. */
    function ObtenerPaciente(id: int, online: bool): (r: Option<Paciente>)
      reads this
      ensures r.Some? <==> online && id in pacientes
      ensures r.Some? ==> r.value == pacientes[id]
    {
      if online && id in pacientes then Some(pacientes[id]) else None
    }

    /** `obtener_pacientes`: every patient, ordered by surname and then name. */
    function ObtenerPacientes(online: bool): (r: seq<(int, Paciente)>)
      reads this
      requires Valid()
      ensures forall i :: 0 <= i < |r| ==> ObtenerPaciente(r[i].0, online) == Some(r[i].1)
      ensures forall id :: ObtenerPaciente(id, online).Some? ==> (id, pacientes[id]) in r
      ensures SortedBy(r, PacienteKey)
      ensures forall i, j :: 0 <= i < j < |r| ==> r[i].0 != r[j].0
    {
      if !online then []
      else Select(pacientes, nextPaciente - 1, (id, p) => Some((id, p)), (x: (int, Paciente)) => x.0, _ => true, PacienteKey)
    }

    /** `actualizar_paciente`: only the supplied fields change; `False` without a statement when none is supplied. */
    method ActualizarPaciente(idPaciente: int, c: PacienteUpdate, online: bool) returns (ok: bool)
      requires Valid()
      modifies this
      ensures Valid()
      ensures ok <==> online && !c.IsEmpty()
      ensures State() == if ok && idPaciente in old(pacientes)
                         then old(State()).(pacientes := old(pacientes)[idPaciente := c.ApplyTo(old(pacientes)[idPaciente])])
                         else old(State())
    {
      var stmt := BuildPacienteUpdate(idPaciente, c);
      if stmt.None? {
        return false;
      }
      PacienteUpdateEffect(State(), idPaciente, c, stmt.value);
      var r := ExecuteUpdate(stmt.value, online);
      ok := r.Some?;
    }

    /** A patient is referenced by a medical record or an appointment. */
    predicate PacienteReferenced(id: int)
      reads this
    {
      (exists k :: k in historiales && historiales[k].idPaciente == id) ||
      (exists k :: k in citas && citas[k].idPaciente == id)
    }

    /** `eliminar_paciente`: refused while the patient is referenced. */
    method EliminarPaciente(idPaciente: int, online: bool) returns (ok: bool)
      requires Valid()
      modifies this
      ensures Valid()
      ensures ok <==> online && !old(PacienteReferenced(idPaciente))
      ensures State() == if ok then old(State()).(pacientes := old(pacientes) - {idPaciente}) else old(State())
      ensures ok ==> ObtenerPaciente(idPaciente, true).None?
    {
      if !online || PacienteReferenced(idPaciente) {
        return false;
      }
      pacientes := pacientes - {idPaciente};
      ok := true;
    }

    // ------------------------------------------------------------ Especialidad

    /** `crear_especialidad`. */
    method CrearEspecialidad(e: Especialidad, online: bool) returns (id: Option<int>)
      requires Valid()
      modifies this
      ensures Valid()
      ensures id.Some? <==> online
      ensures id.Some? ==> id.value == old(nextEspecialidad) && id.value !in old(especialidades)
      ensures State() == if id.Some?
                         then old(State()).(especialidades := old(especialidades)[id.value := e], nextEspecialidad := old(nextEspecialidad) + 1)
                         else old(State())
      ensures id.Some? ==> ObtenerEspecialidad(id.value, true) == Some(e)
    {
      if !online {
        return None;
      }
      id := Some(nextEspecialidad);
      especialidades := especialidades[nextEspecialidad := e];
      nextEspecialidad := nextEspecialidad + 1;
    }

    /** `obtener_especialidad`. */
    function ObtenerEspecialidad(id: int, online: bool): (r: Option<Especialidad>)
      reads this
      ensures r.Some? <==> online && id in especialidades
      ensures r.Some? ==> r.value == especialidades[id]
    {
      if online && id in especialidades then Some(especialidades[id]) else None
    }

    /** `obtener_especialidades`: every specialty, ordered by name. */
    function ObtenerEspecialidades(online: bool): (r: seq<(int, Especialidad)>)
      reads this
      requires Valid()
      ensures forall i :: 0 <= i < |r| ==> ObtenerEspecialidad(r[i].0, online) == Some(r[i].1)
      ensures forall id :: ObtenerEspecialidad(id, online).Some? ==> (id, especialidades[id]) in r
      ensures SortedBy(r, EspecialidadKey)
      ensures forall i, j :: 0 <= i < j < |r| ==> r[i].0 != r[j].0
    {
      if !online then []
      else Select(especialidades, nextEspecialidad - 1, (id, e) => Some((id, e)), (x: (int, Especialidad)) => x.0,
                  _ => true, EspecialidadKey)
    }

    /** `actualizar_especialidad`. */
    method ActualizarEspecialidad(idEspecialidad: int, c: EspecialidadUpdate, online: bool) returns (ok: bool)
      requires Valid()
      modifies this
      ensures Valid()
      ensures ok <==> online && !c.IsEmpty()
      ensures State() == if ok && idEspecialidad in old(especialidades)
                         then old(State()).(especialidades := old(especialidades)[idEspecialidad := c.ApplyTo(old(especialidades)[idEspecialidad])])
                         else old(State())
    {
      var stmt := BuildEspecialidadUpdate(idEspecialidad, c);
      if stmt.None? {
        return false;
      }
      EspecialidadUpdateEffect(State(), idEspecialidad, c, stmt.value);
      var r := ExecuteUpdate(stmt.value, online);
      ok := r.Some?;
    }

    /** A specialty is referenced by a doctor. */
    predicate EspecialidadReferenced(id: int)
      reads this
    {
      exists k :: k in doctores && doctores[k].idEspecialidad == id
    }

    /** `eliminar_especialidad`: refused while a doctor belongs to the specialty. */
    method EliminarEspecialidad(idEspecialidad: int, online: bool) returns (ok: bool)
      requires Valid()
      modifies this
      ensures Valid()
      ensures ok <==> online && !old(EspecialidadReferenced(idEspecialidad))
      ensures State() == if ok then old(State()).(especialidades := old(especialidades) - {idEspecialidad}) else old(State())
      ensures ok ==> ObtenerEspecialidad(idEspecialidad, true).None?
    {
      if !online || EspecialidadReferenced(idEspecialidad) {
        return false;
      }
      especialidades := especialidades - {idEspecialidad};
      ok := true;
    }

    // ------------------------------------------------------------ Doctor

    /** `crear_doctor`: refused when the specialty does not exist. */
    method CrearDoctor(d: Doctor, online: bool) returns (id: Option<int>)
      requires Valid()
      modifies this
      ensures Valid()
      ensures id.Some? <==> online && d.idEspecialidad in old(especialidades)
      ensures id.Some? ==> id.value == old(nextDoctor) && id.value !in old(doctores)
      ensures State() == if id.Some? then old(State()).(doctores := old(doctores)[id.value := d], nextDoctor := old(nextDoctor) + 1)
                         else old(State())
      ensures id.Some? ==> ObtenerDoctor(id.value, true) == Some(DoctorView(id.value, d, especialidades[d.idEspecialidad].nombre))
    {
      if !online || d.idEspecialidad !in especialidades {
        return None;
      }
      id := Some(nextDoctor);
      doctores := doctores[nextDoctor := d];
      nextDoctor := nextDoctor + 1;
    }

    /** `obtener_doctor`: the doctor with the name of its specialty (an inner join). */
    function ObtenerDoctor(id: int, online: bool): (r: Option<DoctorView>)
      reads this
      ensures r.Some? <==> online && id in doctores && doctores[id].idEspecialidad in especialidades
      ensures r.Some? ==> r.value == DoctorView(id, doctores[id], especialidades[doctores[id].idEspecialidad].nombre)
      ensures Valid() ==> (r.Some? <==> online && id in doctores)
    {
      if online && id in doctores then JoinDoctor(especialidades, id, doctores[id]) else None
    }

    /** The joined doctors that `keep` accepts, ordered by surname and then name. */
    function DoctoresWhere(keep: DoctorView -> bool): (r: seq<DoctorView>)
      reads this
      requires Valid()
      ensures forall i :: 0 <= i < |r| ==> ObtenerDoctor(r[i].id, true) == Some(r[i]) && keep(r[i])
      ensures forall id :: ObtenerDoctor(id, true).Some? && keep(ObtenerDoctor(id, true).value) ==> ObtenerDoctor(id, true).value in r
      ensures SortedBy(r, DoctorKey)
      ensures forall i, j :: 0 <= i < j < |r| ==> r[i].id != r[j].id
    {
      var es := especialidades;
      Select(doctores, nextDoctor - 1, (id, d) => JoinDoctor(es, id, d), (v: DoctorView) => v.id, keep, DoctorKey)
    }

    /** `obtener_doctores`: every doctor, ordered by surname and then name. */
    function ObtenerDoctores(online: bool): (r: seq<DoctorView>)
      reads this
      requires Valid()
      ensures forall i :: 0 <= i < |r| ==> ObtenerDoctor(r[i].id, online) == Some(r[i])
      ensures forall id :: ObtenerDoctor(id, online).Some? ==> ObtenerDoctor(id, online).value in r
      ensures SortedBy(r, DoctorKey)
      ensures forall i, j :: 0 <= i < j < |r| ==> r[i].id != r[j].id
    {
      if !online then [] else DoctoresWhere(_ => true)
    }

    /** `obtener_doctores_por_especialidad`: the doctors of one specialty, ordered by surname and then name. */
    function ObtenerDoctoresPorEspecialidad(idEspecialidad: int, online: bool): (r: seq<DoctorView>)
      reads this
      requires Valid()
      ensures forall i :: 0 <= i < |r| ==>
                ObtenerDoctor(r[i].id, online) == Some(r[i]) && r[i].doctor.idEspecialidad == idEspecialidad
      ensures forall id :: ObtenerDoctor(id, online).Some? && ObtenerDoctor(id, online).value.doctor.idEspecialidad == idEspecialidad ==>
                ObtenerDoctor(id, online).value in r
      ensures SortedBy(r, DoctorKey)
      ensures forall i, j :: 0 <= i < j < |r| ==> r[i].id != r[j].id
    {
      if !online then [] else DoctoresWhere((v: DoctorView) => v.doctor.idEspecialidad == idEspecialidad)
    }

    /** A specialty no doctor belongs to lists no doctors: an empty answer, not an error. */
    lemma NoDoctorsOfSpecialty(idEspecialidad: int, online: bool)
      requires Valid()
      requires forall id :: id in doctores ==> doctores[id].idEspecialidad != idEspecialidad
      ensures ObtenerDoctoresPorEspecialidad(idEspecialidad, online) == []
    {
      var r := ObtenerDoctoresPorEspecialidad(idEspecialidad, online);
      if r != [] {
        assert false;
      }
    }

    /** `actualizar_doctor`: refused when the new specialty does not exist. */
    method ActualizarDoctor(idDoctor: int, c: DoctorUpdate, online: bool) returns (ok: bool)
      requires Valid()
      modifies this
      ensures Valid()
      ensures ok <==> online && !c.IsEmpty() &&
                      (idDoctor in old(doctores) ==> c.ApplyTo(old(doctores)[idDoctor]).idEspecialidad in old(especialidades))
      ensures State() == if ok && idDoctor in old(doctores)
                         then old(State()).(doctores := old(doctores)[idDoctor := c.ApplyTo(old(doctores)[idDoctor])])
                         else old(State())
    {
      var stmt := BuildDoctorUpdate(idDoctor, c);
      if stmt.None? {
        return false;
      }
      DoctorUpdateEffect(State(), idDoctor, c, stmt.value);
      var r := ExecuteUpdate(stmt.value, online);
      ok := r.Some?;
    }

    /** A doctor is referenced by a medical record or an appointment. */
    predicate DoctorReferenced(id: int)
      reads this
    {
      (exists k :: k in historiales && historiales[k].idDoctor == id) ||
      (exists k :: k in citas && citas[k].idDoctor == id)
    }

    /** `eliminar_doctor`: refused while the doctor is referenced. */
    method EliminarDoctor(idDoctor: int, online: bool) returns (ok: bool)
      requires Valid()
      modifies this
      ensures Valid()
      ensures ok <==> online && !old(DoctorReferenced(idDoctor))
      ensures State() == if ok then old(State()).(doctores := old(doctores) - {idDoctor}) else old(State())
      ensures ok ==> ObtenerDoctor(idDoctor, true).None?
    {
      if !online || DoctorReferenced(idDoctor) {
        return false;
      }
      doctores := doctores - {idDoctor};
      ok := true;
    }

    // ------------------------------------------------------------ Historial

    /** `crear_historial`: refused when the patient or the doctor does not exist. */
    method CrearHistorial(h: Historial, online: bool) returns (id: Option<int>)
      requires Valid()
      modifies this
      ensures Valid()
      ensures id.Some? <==> online && h.idPaciente in old(pacientes) && h.idDoctor in old(doctores)
      ensures id.Some? ==> id.value == old(nextHistorial) && id.value !in old(historiales)
      ensures State() == if id.Some? then old(State()).(historiales := old(historiales)[id.value := h], nextHistorial := old(nextHistorial) + 1)
                         else old(State())
      ensures id.Some? ==> ObtenerHistorial(id.value, true).Some? && ObtenerHistorial(id.value, true).value.historial == h
    {
      if !online || h.idPaciente !in pacientes || h.idDoctor !in doctores {
        return None;
      }
      id := Some(nextHistorial);
      InsertHistorialKeepsConsistency(State(), h);
      historiales := historiales[nextHistorial := h];
      nextHistorial := nextHistorial + 1;
    }

    /** `obtener_historial`: the record with the names of its patient and doctor (inner joins). */
    function ObtenerHistorial(id: int, online: bool): (r: Option<HistorialView>)
      reads this
      ensures r.Some? <==> online && id in historiales &&
                           historiales[id].idPaciente in pacientes && historiales[id].idDoctor in doctores
      ensures r.Some? ==> r.value.id == id && r.value.historial == historiales[id] &&
                          r.value.pacienteNombre == pacientes[historiales[id].idPaciente].nombre &&
                          r.value.pacienteApellido == pacientes[historiales[id].idPaciente].apellido &&
                          r.value.doctorNombre == doctores[historiales[id].idDoctor].nombre &&
                          r.value.doctorApellido == doctores[historiales[id].idDoctor].apellido
      ensures Valid() ==> (r.Some? <==> online && id in historiales)
    {
      if online && id in historiales then JoinHistorial(pacientes, doctores, id, historiales[id]) else None
    }

    /** The medical records that pass `keep`, newest first. */
    function HistorialesWhere(keep: HistorialView -> bool): (r: seq<HistorialView>)
      reads this
      requires Valid()
      ensures forall i :: 0 <= i < |r| ==> ObtenerHistorial(r[i].id, true) == Some(r[i]) && keep(r[i])
      ensures forall id :: ObtenerHistorial(id, true).Some? && keep(ObtenerHistorial(id, true).value) ==>
                ObtenerHistorial(id, true).value in r
      ensures SortedBy(r, HistorialKey)
      ensures forall i, j :: 0 <= i < j < |r| ==> r[i].id != r[j].id
    {
      var ps, ds := pacientes, doctores;
      Select(historiales, nextHistorial - 1, (id, h) => JoinHistorial(ps, ds, id, h), (v: HistorialView) => v.id,
             keep, HistorialKey)
    }

    /** `obtener_historial_paciente`: one patient's records, newest first. */
    function ObtenerHistorialPaciente(idPaciente: int, online: bool): (r: seq<HistorialView>)
      reads this
      requires Valid()
      ensures forall i :: 0 <= i < |r| ==>
                ObtenerHistorial(r[i].id, online) == Some(r[i]) && r[i].historial.idPaciente == idPaciente
      ensures forall id :: ObtenerHistorial(id, online).Some? && ObtenerHistorial(id, online).value.historial.idPaciente == idPaciente ==>
                ObtenerHistorial(id, online).value in r
      ensures SortedBy(r, HistorialKey)
      ensures forall i, j :: 0 <= i < j < |r| ==> r[i].id != r[j].id
    {
      if !online then [] else HistorialesWhere((v: HistorialView) => v.historial.idPaciente == idPaciente)
    }

    /** `actualizar_historial`: refused when the new doctor does not exist. */
    method ActualizarHistorial(idHistorial: int, c: HistorialUpdate, online: bool) returns (ok: bool)
      requires Valid()
      modifies this
      ensures Valid()
      ensures ok <==> online && !c.IsEmpty() &&
                      (idHistorial in old(historiales) ==> c.ApplyTo(old(historiales)[idHistorial]).idDoctor in old(doctores))
      ensures State() == if ok && idHistorial in old(historiales)
                         then old(State()).(historiales := old(historiales)[idHistorial := c.ApplyTo(old(historiales)[idHistorial])])
                         else old(State())
    {
      var stmt := BuildHistorialUpdate(idHistorial, c);
      if stmt.None? {
        return false;
      }
      HistorialUpdateEffect(State(), idHistorial, c, stmt.value);
      var r := ExecuteUpdate(stmt.value, online);
      ok := r.Some?;
    }

    /** `eliminar_historial`: nothing references a record. */
    method EliminarHistorial(idHistorial: int, online: bool) returns (ok: bool)
      requires Valid()
      modifies this
      ensures Valid()
      ensures ok <==> online
      ensures State() == if ok then old(State()).(historiales := old(historiales) - {idHistorial}) else old(State())
      ensures ok ==> ObtenerHistorial(idHistorial, true).None?
    {
      if !online {
        return false;
      }
      historiales := historiales - {idHistorial};
      ok := true;
    }

    // ------------------------------------------------------------ Cita

    /** `crear_cita`: refused when the patient or the doctor does not exist. */
    method CrearCita(ci: Cita, online: bool) returns (id: Option<int>)
      requires Valid()
      modifies this
      ensures Valid()
      ensures id.Some? <==> online && ci.idPaciente in old(pacientes) && ci.idDoctor in old(doctores)
      ensures id.Some? ==> id.value == old(nextCita) && id.value !in old(citas)
      ensures State() == if id.Some? then old(State()).(citas := old(citas)[id.value := ci], nextCita := old(nextCita) + 1)
                         else old(State())
      ensures id.Some? ==> ObtenerCita(id.value, true).Some? && ObtenerCita(id.value, true).value.cita == ci
    {
      if !online || ci.idPaciente !in pacientes || ci.idDoctor !in doctores {
        return None;
      }
      id := Some(nextCita);
      InsertCitaKeepsConsistency(State(), ci);
      citas := citas[nextCita := ci];
      nextCita := nextCita + 1;
    }

    /** `obtener_cita`: the appointment with its patient, doctor and specialty names (inner joins). */
    function ObtenerCita(id: int, online: bool): (r: Option<CitaView>)
      reads this
      ensures r.Some? <==> online && id in citas && citas[id].idPaciente in pacientes && citas[id].idDoctor in doctores &&
                           doctores[citas[id].idDoctor].idEspecialidad in especialidades
      ensures r.Some? ==> r.value.id == id && r.value.cita == citas[id] &&
                          r.value.pacienteNombre == pacientes[citas[id].idPaciente].nombre &&
                          r.value.pacienteApellido == pacientes[citas[id].idPaciente].apellido &&
                          r.value.doctorNombre == doctores[citas[id].idDoctor].nombre &&
                          r.value.doctorApellido == doctores[citas[id].idDoctor].apellido &&
                          r.value.especialidadNombre == especialidades[doctores[citas[id].idDoctor].idEspecialidad].nombre
      ensures Valid() ==> (r.Some? <==> online && id in citas)
    {
      if online && id in citas then JoinCita(pacientes, doctores, especialidades, id, citas[id]) else None
    }

    /** The appointments that pass `keep`, in date-and-time order. */
    function CitasWhere(keep: CitaView -> bool): (r: seq<CitaView>)
      reads this
      requires Valid()
      ensures forall i :: 0 <= i < |r| ==> ObtenerCita(r[i].id, true) == Some(r[i]) && keep(r[i])
      ensures forall id :: ObtenerCita(id, true).Some? && keep(ObtenerCita(id, true).value) ==> ObtenerCita(id, true).value in r
      ensures SortedBy(r, CitaKey)
      ensures forall i, j :: 0 <= i < j < |r| ==> r[i].id != r[j].id
    {
      SelectCitas(pacientes, doctores, especialidades, citas, nextCita - 1, keep)
    }

    /** `obtener_citas`: every appointment, in date-and-time order. */
    function ObtenerCitas(online: bool): (r: seq<CitaView>)
      reads this
      requires Valid()
      ensures forall i :: 0 <= i < |r| ==> ObtenerCita(r[i].id, online) == Some(r[i])
      ensures forall id :: ObtenerCita(id, online).Some? ==> ObtenerCita(id, online).value in r
      ensures SortedBy(r, CitaKey)
      ensures forall i, j :: 0 <= i < j < |r| ==> r[i].id != r[j].id
    {
      if !online then [] else CitasWhere(_ => true)
    }

    /** `obtener_citas_paciente`: one patient's appointments, in date-and-time order. */
    function ObtenerCitasPaciente(idPaciente: int, online: bool): (r: seq<CitaView>)
      reads this
      requires Valid()
      ensures forall i :: 0 <= i < |r| ==> ObtenerCita(r[i].id, online) == Some(r[i]) && r[i].cita.idPaciente == idPaciente
      ensures forall id :: ObtenerCita(id, online).Some? && ObtenerCita(id, online).value.cita.idPaciente == idPaciente ==>
                ObtenerCita(id, online).value in r
      ensures SortedBy(r, CitaKey)
      ensures forall i, j :: 0 <= i < j < |r| ==> r[i].id != r[j].id
    {
      if !online then [] else CitasWhere((v: CitaView) => v.cita.idPaciente == idPaciente)
    }

    /** `obtener_citas_doctor`: one doctor's appointments, in date-and-time order. */
    function ObtenerCitasDoctor(idDoctor: int, online: bool): (r: seq<CitaView>)
      reads this
      requires Valid()
      ensures forall i :: 0 <= i < |r| ==> ObtenerCita(r[i].id, online) == Some(r[i]) && r[i].cita.idDoctor == idDoctor
      ensures forall id :: ObtenerCita(id, online).Some? && ObtenerCita(id, online).value.cita.idDoctor == idDoctor ==>
                ObtenerCita(id, online).value in r
      ensures SortedBy(r, CitaKey)
      ensures forall i, j :: 0 <= i < j < |r| ==> r[i].id != r[j].id
    {
      if !online then [] else CitasWhere((v: CitaView) => v.cita.idDoctor == idDoctor)
    }

    /** `actualizar_cita`: refused when the new doctor does not exist. */
    method ActualizarCita(idCita: int, c: CitaUpdate, online: bool) returns (ok: bool)
      requires Valid()
      modifies this
      ensures Valid()
      ensures ok <==> online && !c.IsEmpty() &&
                      (idCita in old(citas) ==> c.ApplyTo(old(citas)[idCita]).idDoctor in old(doctores))
      ensures State() == if ok && idCita in old(citas)
                         then old(State()).(citas := old(citas)[idCita := c.ApplyTo(old(citas)[idCita])])
                         else old(State())
    {
      var stmt := BuildCitaUpdate(idCita, c);
      if stmt.None? {
        return false;
      }
      CitaUpdateEffect(State(), idCita, c, stmt.value);
      var r := ExecuteUpdate(stmt.value, online);
      ok := r.Some?;
    }

    /** `eliminar_cita`: nothing references an appointment. */
    method EliminarCita(idCita: int, online: bool) returns (ok: bool)
      requires Valid()
      modifies this
      ensures Valid()
      ensures ok <==> online
      ensures State() == if ok then old(State()).(citas := old(citas) - {idCita}) else old(State())
      ensures ok ==> ObtenerCita(idCita, true).None?
    {
      if !online {
        return false;
      }
      citas := citas - {idCita};
      ok := true;
    }
  }
}
