# Clinic appointments: the CRUD layer in Dafny

A model of the data-access layer of a medical-appointments service (`crud.py`).
The service keeps five tables:

- patients (`paciente`);
- specialties (`especialidad`);
- doctors (`doctor`);
- visit records (`historial`);
- appointments (`cita`).

Each table has create, get, list, partial-update and delete operations. On top
of them sits an availability engine, which lists each doctor's free half-hour
slots for a date.

The relational store is a class, `Store.Clinic`. It holds one map from identifier
to record per table, plus one AUTO_INCREMENT counter per table. The gateway
(`execute_query` / `execute_query_one`) either runs a statement or answers `None`.
Whether its connection succeeds is the parameter `online` of every operation.
A statement the server refuses makes the gateway answer `None` too: a bad
column or value, or a row whose foreign key names no row. Record shapes and
their optionality follow the Pydantic models in `models.py`.

Modules:

- `Wrappers`: `Option`.
- `Records`:
  - the record datatypes;
  - the schema's columns and their kinds;
  - the meaning of one `col = value` assignment (`Set`) and of a whole SET clause (`Assign`).
- `Changesets`:
  - the five `*Update` models as changesets of optional fields;
  - the five builders that grow the assignment and parameter lists step by step;
  - the proof that the built statement turns a row into exactly `ApplyTo` of it.
- `Ordering`:
  - `WHERE`, `JOIN` and `ORDER BY` as a filter, an inner join and an insertion sort;
  - sorting is on integer-sequence keys compared lexicographically;
  - `(apellido, nombre)` is encoded so that surname decides first.
- `Store`:
  - the snapshot of the database;
  - the effect of an UPDATE statement;
  - the `Clinic` class with every CRUD operation;
  - the consistency invariant: identifiers below their counters, foreign keys naming existing rows.
- `Availability`:
  - the sixteen-slot catalog;
  - `verificar_disponibilidad`;
  - candidate resolution;
  - the two nested loops of `obtener_horarios_disponibles` as methods proved against `FreeSlots` and `Offer`.

Two behaviours of the code are kept as written:

- UPDATE and DELETE report their success from `execute_query(...) is not None`.
  For a statement that runs, the gateway answers the cursor's `lastrowid`, which is
  0 and not `None`. So `actualizar_*` and `eliminar_*` on an identifier that names
  no row report `True`. The model's `Actualizar*` and `Eliminar*` return `true`
  there and leave the state unchanged.
- The availability check compares `TIME(fecha_hora)` with the label `'HH:MM'`.
  An appointment blocks a slot only when its time is `HH:MM:00`, to the second.

## Model

| member | source | states |
|---|---|---|
| Records.Set | crud.py:56 | one `col = v` assignment succeeds iff the column belongs to the row's table with that kind; the assigned column then holds `v`, every other column is unchanged, the table is kept |
| Records.SetPaciente | crud.py:56 | a `paciente` column assignment: accepted iff the column fits the table; the column holds the value; other columns unchanged |
| Records.SetEspecialidad | crud.py:94 | the same for `especialidad` |
| Records.SetDoctor | crud.py:164 | the same for `doctor` |
| Records.SetHistorial | crud.py:232 | the same for `historial` |
| Records.SetCita | crud.py:322 | the same for `cita` |
| Records.Assign | crud.py:56 | the SET clause `f0 = p0, f1 = p1, ...`: the assignments applied left to right, rejected at the first that does not fit |
| Records.AssignKeepsTable | crud.py:56 | an UPDATE never moves a row to another table |
| Records.AssignCells | crud.py:56 | a SET clause over distinct, fitting columns succeeds; each assigned column holds its parameter; every unassigned column keeps its value |
| Records.CellsDetermineRow | crud.py:56 | two rows of the same table with the same cells are equal, so the cells fix the updated row |
| Changesets.Present | crud.py:33-50 | the `if field is not None` selection: the columns a changeset supplies, in declaration order |
| Changesets.PresentColumns | crud.py:30-50 | a column is assigned iff the changeset supplies it (is not `None`); the assignments have no duplicates |
| Changesets.PresentValuesMatch | crud.py:30-50 | exactly one parameter per assignment; the i-th parameter is the value supplied for the i-th assigned column |
| Changesets.AppendIfSupplied | crud.py:33-35 | one `if field is not None` step appends the column and its value exactly when the field is supplied |
| Changesets.PacienteSupplied | crud.py:33-50 | the six paciente steps, in declaration order, build exactly the supplied columns and their values |
| Changesets.PacienteNothingSupplied | crud.py:52-53 | nothing is assigned iff every field of the changeset is `None` |
| Changesets.BuildPacienteUpdate | crud.py:28-56 | no statement iff the changeset is empty; otherwise an UPDATE of `paciente`: assignments are the supplied columns in declaration order, one parameter per assignment paired with its value, the id appended last |
| Changesets.PacienteUpdate.ApplyTo | models.py:19-25 | the patient after a partial update: each supplied column takes the new value, every other column keeps its value |
| Changesets.EspecialidadSupplied | crud.py:83-88 | the two especialidad steps build exactly the supplied columns and values, in order |
| Changesets.EspecialidadNothingSupplied | crud.py:90-91 | nothing is assigned iff the changeset is empty |
| Changesets.BuildEspecialidadUpdate | crud.py:79-94 | as for paciente, over `nombre, descripcion` |
| Changesets.EspecialidadUpdate.ApplyTo | models.py:43-45 | supplied columns change, the rest are kept |
| Changesets.DoctorSupplied | crud.py:144-158 | the five doctor steps build exactly the supplied columns and values, in order |
| Changesets.DoctorNothingSupplied | crud.py:160-161 | nothing is assigned iff the changeset is empty |
| Changesets.BuildDoctorUpdate | crud.py:140-164 | as for paciente, over `nombre, apellido, telefono, email, id_especialidad` |
| Changesets.DoctorUpdate.ApplyTo | models.py:66-71 | supplied columns change, the rest are kept |
| Changesets.HistorialSupplied | crud.py:212-226 | the five historial steps build exactly the supplied columns and values, in order |
| Changesets.HistorialNothingSupplied | crud.py:228-229 | nothing is assigned iff the changeset is empty |
| Changesets.BuildHistorialUpdate | crud.py:208-232 | as for paciente, over `fecha, diagnostico, tratamiento, observaciones, id_doctor` |
| Changesets.HistorialUpdate.ApplyTo | models.py:93-98 | supplied columns change, the rest are kept (the patient reference is not updatable) |
| Changesets.CitaSupplied | crud.py:308-316 | the three cita steps build exactly the supplied columns and values, in order |
| Changesets.CitaNothingSupplied | crud.py:318-319 | nothing is assigned iff the changeset is empty |
| Changesets.BuildCitaUpdate | crud.py:304-322 | as for paciente, over `fecha_hora, motivo, id_doctor` |
| Changesets.CitaUpdate.ApplyTo | models.py:118-121 | supplied columns change, the rest are kept (the patient reference is not updatable) |
| Changesets.BuiltAssignmentYields | crud.py:55-56 | a SET clause built from a changeset over distinct columns turns the row into the one whose supplied columns hold the new values and whose other columns are untouched |
| Changesets.PacienteUpdateYields | crud.py:28-56 | the built paciente statement turns the stored row into exactly `ApplyTo` of it |
| Changesets.EspecialidadUpdateYields | crud.py:79-94 | the same for especialidad |
| Changesets.DoctorUpdateYields | crud.py:140-164 | the same for doctor |
| Changesets.HistorialUpdateYields | crud.py:208-232 | the same for historial |
| Changesets.CitaUpdateYields | crud.py:304-322 | the same for cita |
| Ordering.LexLeReflexive | crud.py:25 | the key order of `ORDER BY` is reflexive |
| Ordering.LexLeTotal | crud.py:25 | any two keys are comparable |
| Ordering.LexLeTransitive | crud.py:25 | the key order is transitive |
| Ordering.LexLeAntisymmetric | crud.py:25 | two keys each at most the other are equal |
| Ordering.InsertBy | crud.py:25 | inserting into a sorted list keeps it sorted and adds exactly that element |
| Ordering.SortBy | crud.py:25 | `ORDER BY`: the result is sorted by the key and is a permutation of the input |
| Ordering.SortedMembers | crud.py:25 | sorting neither adds nor drops an element |
| Ordering.Filter | crud.py:135 | `WHERE`: an element is kept iff it is in the input and passes the condition |
| Ordering.RowsUpTo | crud.py:25 | a table scan: exactly the rows with identifiers `1..n`, in ascending identifier order |
| Ordering.Joined | crud.py:123-125 | an inner join: every result comes from a row that joins, and every row that joins yields its result |
| Ordering.Select | crud.py:131-137 | `SELECT ... JOIN ... WHERE ... ORDER BY`: sorted by the key; everything returned is a joined table row passing the filter; every such row is returned, and no identifier is returned twice |
| Ordering.JoinedIncreasing | crud.py:123-125 | a join over rows in increasing identifier order keeps its results in increasing identifier order |
| Ordering.FilterIncreasing | crud.py:135 | a filter keeps increasing identifiers increasing |
| Ordering.PermutationKeepsIdsDistinct | crud.py:25 | reordering rows with distinct identifiers, as `ORDER BY` does, keeps them distinct |
| Ordering.SelectSound | crud.py:131-137 | every filtered joined row comes from the table under its own identifier |
| Ordering.SelectComplete | crud.py:131-137 | every table row that joins and passes the filter is kept |
| Ordering.NameKeyOrder | crud.py:126 | `ORDER BY apellido, nombre`: the encoded key, built from the two strings' character codes (`Ords`), compares by surname first, and by name among equal surnames |
| Store.JoinDoctor | crud.py:114-116 | `doctor JOIN especialidad`: the doctor with its specialty's name, absent when the specialty is missing |
| Store.JoinHistorial | crud.py:187-191 | `historial JOIN paciente JOIN doctor`: the record with its patient's and doctor's names, absent when either is missing |
| Store.JoinCita | crud.py:252-258 | `cita JOIN paciente JOIN doctor JOIN especialidad`: the appointment with the three names, absent when a reference is missing |
| Store.PacienteKey | crud.py:25 | `ORDER BY apellido, nombre` for patients |
| Store.EspecialidadKey | crud.py:76 | `ORDER BY nombre` for specialties |
| Store.DoctorKey | crud.py:126 | `ORDER BY d.apellido, d.nombre` for doctors |
| Store.HistorialKey | crud.py:204 | `ORDER BY h.fecha DESC`: the date negated component by component, so a later date sorts first |
| Store.CitaKey | crud.py:272 | `ORDER BY c.fecha_hora`: date then time, to the second |
| Store.Lookup | crud.py:21 | a row looked up in a table belongs to that table |
| Store.EffectOn | database.py:29-44 | an UPDATE run on the database matches no row, replaces an existing row of its table by a version whose foreign keys hold, or is rejected; a replacement's id is the statement's last parameter |
| Store.PacienteUpdateEffect | crud.py:55-57 | the built paciente statement is never rejected; the database afterwards has the row replaced by `ApplyTo` of it when the id exists, and is unchanged otherwise |
| Store.EspecialidadUpdateEffect | crud.py:93-95 | the same for especialidad |
| Store.DoctorUpdateEffect | crud.py:163-165 | the built doctor statement is rejected iff the row exists and its updated specialty names no specialty; otherwise the row becomes `ApplyTo` of it, or nothing changes when the id is absent |
| Store.HistorialUpdateEffect | crud.py:231-233 | the same for historial, with the updated doctor reference |
| Store.CitaUpdateEffect | crud.py:321-323 | the same for cita, with the updated doctor reference |
| Store.ReplacementKeepsConsistency | crud.py:56 | replacing an existing row by one whose foreign keys hold keeps identifiers and foreign keys consistent |
| Store.ReplacePacienteKeepsConsistency | crud.py:56 | the same for a patient row |
| Store.ReplaceEspecialidadKeepsConsistency | crud.py:94 | the same for a specialty row |
| Store.ReplaceDoctorKeepsConsistency | crud.py:164 | the same for a doctor row |
| Store.ReplaceHistorialKeepsConsistency | crud.py:232 | the same for a record row |
| Store.ReplaceCitaKeepsConsistency | crud.py:322 | the same for an appointment row |
| Store.InsertHistorialKeepsConsistency | crud.py:174-183 | inserting a record whose references exist, under the next identifier, keeps the database consistent |
| Store.InsertCitaKeepsConsistency | crud.py:242-248 | inserting an appointment whose references exist, under the next identifier, keeps the database consistent |
| Store.Clinic.ExecuteUpdate | database.py:23-46 | `execute_query` for an UPDATE: `None` iff the connection fails or the statement is rejected, otherwise `lastrowid` 0; the new database is the statement's effect, or the old one on `None` |
| Store.Clinic.CrearPaciente | crud.py:9-22 | succeeds iff the gateway is reachable; the new id is the next counter value and was unused; the patient is stored under it; `obtener_paciente` on the new id returns the input |
| Store.Clinic.ObtenerPacientes | crud.py:24-26 | exactly the stored patients, each once with its id, ordered by surname then name; empty when the gateway fails |
| Store.Clinic.ActualizarPaciente | crud.py:28-57 | `True` iff some field is supplied and the gateway is reachable; those fields of that patient change; nothing else changes |
| Store.Clinic.EliminarPaciente | crud.py:59-61 | `True` iff reachable and no record or appointment references the patient; on `True` the patient is gone, a get on its id finds nothing, and nothing else changes |
| Store.Clinic.CrearEspecialidad | crud.py:66-73 | as for patients: stored under the next id; `obtener_especialidad` on the new id returns the input |
| Store.Clinic.ObtenerEspecialidades | crud.py:75-77 | exactly the stored specialties, each once, ordered by name |
| Store.Clinic.ActualizarEspecialidad | crud.py:79-95 | `True` iff some field is supplied and reachable; only the supplied fields of that specialty change |
| Store.Clinic.EliminarEspecialidad | crud.py:97-99 | `True` iff reachable and no doctor belongs to the specialty; on `True` it is gone and a get on its id finds nothing |
| Store.Clinic.CrearDoctor | crud.py:104-110 | succeeds iff reachable and the specialty exists; the doctor is stored under the next id; a get returns it with its specialty's name |
| Store.Clinic.ObtenerDoctor | crud.py:112-119 | the doctor joined with its specialty's name; under the invariant, present iff reachable and stored |
| Store.Clinic.DoctoresWhere | crud.py:121-138 | the joined doctors that pass a condition, all of them and each once, ordered by surname then name |
| Store.Clinic.ObtenerDoctores | crud.py:121-128 | exactly the joined doctors, each once, ordered by surname then name |
| Store.Clinic.ObtenerDoctoresPorEspecialidad | crud.py:130-138 | exactly the joined doctors of that specialty, each once, ordered by surname then name |
| Store.Clinic.NoDoctorsOfSpecialty | crud.py:130-138 | a specialty no doctor belongs to lists no doctors |
| Store.Clinic.ActualizarDoctor | crud.py:140-165 | `True` iff some field is supplied, reachable, and the updated specialty exists (when the doctor exists); only the supplied fields change |
| Store.Clinic.EliminarDoctor | crud.py:167-169 | `True` iff reachable and no record or appointment references the doctor; on `True` it is gone |
| Store.Clinic.CrearHistorial | crud.py:174-183 | succeeds iff reachable and the patient and the doctor exist; stored under the next id; a get returns it |
| Store.Clinic.ObtenerHistorial | crud.py:185-194 | the record joined with its patient's and doctor's names; under the invariant, present iff reachable and stored |
| Store.Clinic.HistorialesWhere | crud.py:196-206 | the joined records that pass a condition, all of them and each once, newest first |
| Store.Clinic.ObtenerHistorialPaciente | crud.py:196-206 | exactly one patient's joined records, each once, newest first |
| Store.Clinic.ActualizarHistorial | crud.py:208-233 | `True` iff some field is supplied, reachable, and the updated doctor exists (when the record exists); only the supplied fields change |
| Store.Clinic.EliminarHistorial | crud.py:235-237 | `True` iff reachable; on `True` the record is gone |
| Store.Clinic.CrearCita | crud.py:242-248 | succeeds iff reachable and the patient and the doctor exist; stored under the next id; a get returns it |
| Store.Clinic.ObtenerCita | crud.py:250-261 | the appointment joined with its patient's, doctor's and specialty's names; under the invariant, present iff reachable and stored |
| Store.SelectCitas | crud.py:252-258 | the appointments `1..n` whose three joins succeed and that pass a condition, all of them and each once, in date-and-time order |
| Store.Clinic.CitasWhere | crud.py:263-302 | the joined appointments that pass a condition, all of them and each once, in date-and-time order |
| Store.Clinic.ObtenerCitas | crud.py:263-274 | exactly the joined appointments, each once, in date-and-time order |
| Store.Clinic.ObtenerCitasPaciente | crud.py:276-288 | exactly one patient's joined appointments, each once, in date-and-time order |
| Store.Clinic.ObtenerCitasDoctor | crud.py:290-302 | exactly one doctor's joined appointments, each once, in date-and-time order |
| Store.Clinic.ActualizarCita | crud.py:304-323 | `True` iff some field is supplied, reachable, and the updated doctor exists (when the appointment exists); only the supplied fields change |
| Store.Clinic.EliminarCita | crud.py:325-327 | `True` iff reachable; on `True` the appointment is gone |
| Availability.TwoDigits | crud.py:344-347 | two decimal digits that read back as the number, for numbers below 100 |
| Availability.Label | crud.py:344-347 | an `HH:MM` label: five characters with `:` in the middle |
| Availability.LabelsDiffer | crud.py:344-347 | different well-formed times have different labels |
| Availability.CatalogShape | crud.py:344-347 | sixteen well-formed slots: 08:00 to 11:30 and 14:00 to 17:30, every half hour |
| Availability.CatalogLabelled | crud.py:344-347 | the slots carry exactly the sixteen literal labels, in order |
| Availability.CatalogIncreasing | crud.py:344-347 | the catalog is strictly increasing |
| Availability.Blocks | crud.py:335-338 | the query's match: same doctor, `DATE(fecha_hora)` equal to the date, `TIME(fecha_hora)` equal to `HH:MM` with seconds 0 |
| Availability.VerificarDisponibilidad | crud.py:332-340 | available iff the lookup succeeds and no appointment of that doctor falls on that date at exactly that time; a failed lookup means not available |
| Availability.CountZero | crud.py:336-340 | `COUNT(*) = 0` iff no appointment matches |
| Availability.Candidates | crud.py:349-357 | a truthy doctor id gives that doctor if it exists, else nothing; else a truthy specialty id gives all that specialty's doctors; else all doctors; the latter two ordered by surname then name; no doctor twice; an id of 0 counts as absent |
| Availability.FreeSlots | crud.py:362-365 | the inner loop's result: the offered slots whose check passes, in order |
| Availability.FreeSlotsExact | crud.py:362-365 | a slot is listed iff it is offered and the point check passes for it |
| Availability.FreeSlotsIncreasing | crud.py:362-365 | the free slots keep the increasing order of the slots offered |
| Availability.FreeSlotsSnoc | crud.py:363-365 | one more slot adds itself at the end iff its check passes |
| Availability.FreeSlotsAppend | crud.py:363-365 | the free slots of a concatenation are the concatenation of the free slots |
| Availability.FreeSlotsAllFree | crud.py:363-365 | every slot is listed when every check passes |
| Availability.FreeSlotsNoneFree | crud.py:363-365 | no slot is listed when every check fails |
| Availability.Labels | crud.py:365 | one label per slot, in order |
| Availability.Entry | crud.py:368-373 | one answer entry: the doctor's id, `nombre apellido`, specialty name and free slot labels |
| Availability.EntryFor | crud.py:367-373 | a doctor's contribution: its entry when some slot is free, nothing otherwise |
| Availability.Offer | crud.py:359-375 | the outer loop's result: the doctors' contributions concatenated in the doctors' order |
| Availability.OfferAppend | crud.py:361-373 | the answer for two doctor lists in a row is the two answers in a row |
| Availability.OfferAvoids | crud.py:361-373 | a doctor not in the list gets no entry |
| Availability.OfferDistinctDoctors | crud.py:361-373 | doctors listed once each get at most one entry each |
| Availability.OfferEntries | crud.py:361-373 | every entry belongs to a listed doctor and has a free slot; every listed doctor with a free slot has its entry, whose name is `nombre + " " + apellido` |
| Availability.EntrySlots | crud.py:362-372 | an entry's slots are exactly the catalog times whose check passes, in increasing catalog order |
| Availability.EntryLabelsDistinct | crud.py:362-365 | an entry never lists a time twice |
| Availability.FreeLabels | crud.py:362-365 | the inner loop returns the labels of the free slots, in the order offered |
| Availability.OfferLoop | crud.py:359-375 | the outer loop returns one entry per doctor with a free slot, in the doctors' order |
| Availability.HorariosDisponibles | crud.py:342-375 | the answer is the offer over the resolved candidates and the sixteen-slot catalog; no doctor appears in two entries |
| Availability.FailedLookupFreesNothing | crud.py:339-340 | when every lookup fails, no slot is free |
| Availability.BookingCheck | crud.py:335-340 | with one appointment at `hour`:00, a slot of that doctor on that day is free iff it is not that time |
| Availability.OneBookingTakesOneSlot | crud.py:332-365 | one appointment at 10:00 removes exactly that slot of that doctor on that day; fifteen remain |
| Availability.OneBookingLeavesOthersFree | crud.py:332-365 | the same appointment leaves the next day, and every other doctor, with all sixteen slots |
| Availability.TwoBookingsTakeTwoSlots | crud.py:332-365 | appointments at 08:00 and 14:00 remove exactly those two slots, the rest in catalog order |
| Availability.TwoBookingsLeaveFourteen | crud.py:332-365 | so fourteen slots remain |

## Left out

- MySQL itself is not modelled: connections, cursors, commit and rollback (`database.py`). The gateway is the class's maps.
  - Any connection failure is the parameter `online`, fixed for the whole call. A failure of one statement among several in one call is not modelled, e.g. the two `obtener_doctor` calls in candidate resolution, or the sixteen point checks per doctor.
- The HTTP layer (`main.py`), the interactive installer (`setup.py`) and the manual client script (`test_api.py`) are not part of this model: they are routing, terminal and file I/O.
- Unique keys (patient phone and e-mail, doctor e-mail) are not modelled. An insert or update that would break one succeeds in the model.
- The schema file is not part of this model. Foreign keys are modelled as RESTRICT, with no cascade:
  - a delete is refused while a row references the target;
  - an insert or update is refused when a reference names no row.
- `Store.Clinic.CrearPaciente`: in the model a failed insert does not consume an identifier. An AUTO_INCREMENT server may skip one (likewise for the other `Crear*`).
- Ordering compares strings by character code. The server's collation (case folding, accents) is not modelled.
  - Rows with equal keys come out in ascending identifier order, a consequence of the model's stable sort. The SQL leaves that order unspecified.
- `Store.Clinic.ObtenerHistorialPaciente` orders by date only, as the SQL does. The order among records of the same date is the model's, as above.
- `Availability.VerificarDisponibilidad` takes the time as an already-parsed `Slot`. The `strptime` parsing of the `"HH:MM"` label, which only rejects malformed input, is not modelled.
- `Availability.VerificarDisponibilidad` returns `false` on a failed lookup, where the source returns `None`.
  - Inside `obtener_horarios_disponibles` the two agree: both skip the slot.
  - At the HTTP endpoint that returns `{"disponible": ...}` (main.py:278-283) they differ: the source answers `null`, the model's value would be `false`.
- Pydantic validation of dates, times and e-mail addresses is not modelled. Dates and times are plain integer triples.
- The `''` default of `doctor.get('especialidad_nombre', '')` is not modelled: doctors reach the engine only through the join, which always supplies the name.
- The race between checking a slot and booking it needs concurrent callers and is not modelled. Neither model nor source prevents two bookings of the same doctor, date and time.
