/**
 * Appointment availability: the fixed catalog of half-hour slots, the
 * point check "does this doctor have no appointment at that date and
 * time", and the per-doctor list of free slots for one date.  The checks
 * read the appointment table, passed as its current content.
 */
module Availability {
  import opened Wrappers
  import opened Records
  import opened Ordering
  import opened Store

  /** A time of day to the minute, as parsed from an `"HH:MM"` label. */
  datatype Slot = Slot(hour: int, minute: int)

  /** `horarios_base`: four morning hours and four afternoon hours, every half hour. */
  const Catalog: seq<Slot> := [
    Slot(8, 0), Slot(8, 30), Slot(9, 0), Slot(9, 30), Slot(10, 0), Slot(10, 30), Slot(11, 0), Slot(11, 30),
    Slot(14, 0), Slot(14, 30), Slot(15, 0), Slot(15, 30), Slot(16, 0), Slot(16, 30), Slot(17, 0), Slot(17, 30)]

  /** The catalog as the literal labels the service returns. */
  const CatalogLabels: seq<string> := [
    "08:00", "08:30", "09:00", "09:30", "10:00", "10:30", "11:00", "11:30",
    "14:00", "14:30", "15:00", "15:30", "16:00", "16:30", "17:00", "17:30"]

  function Minutes(s: Slot): int {
    s.hour * 60 + s.minute
  }

  predicate WellFormed(s: Slot) {
    0 <= s.hour < 24 && 0 <= s.minute < 60
  }

  /** The last two decimal digits of a number, zero-padded. */
  function TwoDigits(n: int): (r: string)
    ensures |r| == 2 && '0' <= r[0] <= '9' && '0' <= r[1] <= '9'
    ensures 0 <= n < 100 ==> (r[0] as int - '0' as int) * 10 + (r[1] as int - '0' as int) == n
  {
    [('0' as int + (n / 10) % 10) as char, ('0' as int + n % 10) as char]
  }

  /** The `"%H:%M"` label of a slot. */
  function Label(s: Slot): (r: string)
    ensures |r| == 5 && r[2] == ':'
  {
    TwoDigits(s.hour) + ":" + TwoDigits(s.minute)
  }

  /** The two digits of a zero-padded number read back as that number. */
  function ReadTwoDigits(d: string): int
    requires |d| == 2
  {
    (d[0] as int - '0' as int) * 10 + (d[1] as int - '0' as int)
  }

  /** Different well-formed slots have different labels. */
  lemma LabelsDiffer(a: Slot, b: Slot)
    requires WellFormed(a) && WellFormed(b) && a != b
    ensures Label(a) != Label(b)
  {
    var la, lb := Label(a), Label(b);
    assert la[..2] == TwoDigits(a.hour) && lb[..2] == TwoDigits(b.hour);
    assert la[3..] == TwoDigits(a.minute) && lb[3..] == TwoDigits(b.minute);
    assert ReadTwoDigits(la[..2]) == a.hour && ReadTwoDigits(lb[..2]) == b.hour;
    assert ReadTwoDigits(la[3..]) == a.minute && ReadTwoDigits(lb[3..]) == b.minute;
  }

  /** The catalog: sixteen well-formed slots, 08:00-11:30 and 14:00-17:30, half an hour apart. */
  lemma CatalogShape()
    ensures |Catalog| == 16
    ensures forall i :: 0 <= i < |Catalog| ==> WellFormed(Catalog[i])
    ensures forall i :: 0 <= i < 8 ==> Minutes(Catalog[i]) == 8 * 60 + 30 * i
    ensures forall i :: 8 <= i < 16 ==> Minutes(Catalog[i]) == 14 * 60 + 30 * (i - 8)
  {
  }

  /** The catalog's slots carry exactly the sixteen labels the service lists. */
  lemma CatalogLabelled()
    ensures |Catalog| == |CatalogLabels|
    ensures forall i :: 0 <= i < |Catalog| ==> Label(Catalog[i]) == CatalogLabels[i]
  {
    forall i | 0 <= i < |Catalog|
      ensures Label(Catalog[i]) == CatalogLabels[i]
    {
      var s := Catalog[i];
      assert Label(s) == TwoDigits(s.hour) + ":" + TwoDigits(s.minute);
    }
  }

  /** Strictly increasing times of day. */
  predicate Increasing(slots: seq<Slot>) {
    forall i, j :: 0 <= i < j < |slots| ==> Minutes(slots[i]) < Minutes(slots[j])
  }

  lemma CatalogIncreasing()
    ensures Increasing(Catalog)
  {
    CatalogShape();
  }

  /** An appointment of `idDoctor` on `fecha` at exactly the slot's time (to the second). */
  predicate Blocks(c: Cita, fecha: Date, idDoctor: int, hora: Slot) {
    c.idDoctor == idDoctor && c.fechaHora.date == fecha && c.fechaHora.time == Time(hora.hour, hora.minute, 0)
  }

  /**
   * `verificar_disponibilidad`: the count of the doctor's appointments at
   * that date and time is zero; a failed lookup counts as not available.
   */
  function VerificarDisponibilidad(citas: map<int, Cita>, fecha: Date, idDoctor: int, hora: Slot, online: bool): (r: bool)
    ensures r <==> online && forall k :: k in citas ==> !Blocks(citas[k], fecha, idDoctor, hora)
  {
    if !online then false
    else
      var clashes := set k | k in citas && Blocks(citas[k], fecha, idDoctor, hora);
      CountZero(citas, fecha, idDoctor, hora);
      |clashes| == 0
  }

  /** `COUNT(*) = 0` says that no row matches. */
  lemma CountZero(citas: map<int, Cita>, fecha: Date, idDoctor: int, hora: Slot)
    ensures |set k | k in citas && Blocks(citas[k], fecha, idDoctor, hora)| == 0 <==>
            forall k :: k in citas ==> !Blocks(citas[k], fecha, idDoctor, hora)
  {
    var clashes := set k | k in citas && Blocks(citas[k], fecha, idDoctor, hora);
    if k :| k in citas && Blocks(citas[k], fecha, idDoctor, hora) {
      assert k in clashes;
    } else {
      assert forall k :: k !in clashes;
      assert clashes == {};
    }
  }

  /** Python truthiness of an optional identifier: absent and 0 both count as not given. */
  predicate Truthy(o: Option<int>) {
    o.Some? && o.value != 0
  }

  /**
   * The doctors considered: the one doctor asked for, else the doctors of
   * the specialty asked for, else every doctor.
   */
  function Candidates(db: Clinic, idDoctor: Option<int>, idEspecialidad: Option<int>, online: bool): (r: seq<DoctorView>)
    reads db
    requires db.Valid()
    ensures forall i :: 0 <= i < |r| ==> db.ObtenerDoctor(r[i].id, online) == Some(r[i])
    ensures SortedBy(r, DoctorKey)
    ensures forall i, j :: 0 <= i < j < |r| ==> r[i].id != r[j].id
    ensures Truthy(idDoctor) ==>
              |r| <= 1 && (forall i :: 0 <= i < |r| ==> r[i].id == idDoctor.value) &&
              (db.ObtenerDoctor(idDoctor.value, online).Some? ==> |r| == 1)
    ensures !Truthy(idDoctor) && Truthy(idEspecialidad) ==>
              (forall i :: 0 <= i < |r| ==> r[i].doctor.idEspecialidad == idEspecialidad.value) &&
              (forall id :: db.ObtenerDoctor(id, online).Some? &&
                            db.ObtenerDoctor(id, online).value.doctor.idEspecialidad == idEspecialidad.value ==>
                            db.ObtenerDoctor(id, online).value in r)
    ensures !Truthy(idDoctor) && !Truthy(idEspecialidad) ==>
              forall id :: db.ObtenerDoctor(id, online).Some? ==> db.ObtenerDoctor(id, online).value in r
  {
    if Truthy(idDoctor) then
      match db.ObtenerDoctor(idDoctor.value, online)
      case Some(v) => [v]
      case None => []
    else if Truthy(idEspecialidad) then db.ObtenerDoctoresPorEspecialidad(idEspecialidad.value, online)
    else db.ObtenerDoctores(online)
  }

  /** The slots among `slots` at which the doctor is available, in their order. */
  function FreeSlots(citas: map<int, Cita>, fecha: Date, idDoctor: int, slots: seq<Slot>, online: bool): seq<Slot>
    decreases |slots|
  {
    if slots == [] then []
    else
      var last := slots[|slots| - 1];
      FreeSlots(citas, fecha, idDoctor, slots[..|slots| - 1], online) +
      (if VerificarDisponibilidad(citas, fecha, idDoctor, last, online) then [last] else [])
  }

  /** A slot is free exactly when it is offered and the point check passes for it. */
  lemma {:induction false} FreeSlotsExact(citas: map<int, Cita>, fecha: Date, idDoctor: int, slots: seq<Slot>, online: bool)
    ensures forall s :: s in FreeSlots(citas, fecha, idDoctor, slots, online) <==>
                        s in slots && VerificarDisponibilidad(citas, fecha, idDoctor, s, online)
    decreases |slots|
  {
    if slots != [] {
      var init := slots[..|slots| - 1];
      FreeSlotsExact(citas, fecha, idDoctor, init, online);
      assert slots == init + [slots[|slots| - 1]];
    }
  }

  /** The free slots keep the order of the slots offered. */
  lemma {:induction false} FreeSlotsIncreasing(citas: map<int, Cita>, fecha: Date, idDoctor: int, slots: seq<Slot>, online: bool)
    requires Increasing(slots)
    ensures Increasing(FreeSlots(citas, fecha, idDoctor, slots, online))
    decreases |slots|
  {
    if slots != [] {
      var init := slots[..|slots| - 1];
      var last := slots[|slots| - 1];
      FreeSlotsIncreasing(citas, fecha, idDoctor, init, online);
      FreeSlotsExact(citas, fecha, idDoctor, init, online);
      var rest := FreeSlots(citas, fecha, idDoctor, init, online);
      forall k | 0 <= k < |rest| ensures Minutes(rest[k]) < Minutes(last) {
        assert rest[k] in init;
        var m :| 0 <= m < |init| && init[m] == rest[k];
      }
    }
  }

  lemma FreeSlotsSnoc(citas: map<int, Cita>, fecha: Date, idDoctor: int, slots: seq<Slot>, s: Slot, online: bool)
    ensures FreeSlots(citas, fecha, idDoctor, slots + [s], online) ==
            FreeSlots(citas, fecha, idDoctor, slots, online) +
            (if VerificarDisponibilidad(citas, fecha, idDoctor, s, online) then [s] else [])
  {
    assert (slots + [s])[..|slots|] == slots;
  }

  lemma LabelsSnoc(slots: seq<Slot>, s: Slot)
    ensures Labels(slots + [s]) == Labels(slots) + [Label(s)]
  {
    assert (slots + [s])[..|slots|] == slots;
  }

  /** The free slots of two lists one after the other are the two lists' free slots one after the other. */
  lemma {:induction false} FreeSlotsAppend(citas: map<int, Cita>, fecha: Date, idDoctor: int, a: seq<Slot>, b: seq<Slot>, online: bool)
    ensures FreeSlots(citas, fecha, idDoctor, a + b, online) ==
            FreeSlots(citas, fecha, idDoctor, a, online) + FreeSlots(citas, fecha, idDoctor, b, online)
    decreases |b|
  {
    if b == [] {
      assert a + b == a;
    } else {
      var init, last := b[..|b| - 1], b[|b| - 1];
      FreeSlotsAppend(citas, fecha, idDoctor, a, init, online);
      assert a + b == (a + init) + [last];
      FreeSlotsSnoc(citas, fecha, idDoctor, a + init, last, online);
      assert b == init + [last];
      FreeSlotsSnoc(citas, fecha, idDoctor, init, last, online);
    }
  }

  /** When the point check passes everywhere, every slot is free. */
  lemma {:induction false} FreeSlotsAllFree(citas: map<int, Cita>, fecha: Date, idDoctor: int, slots: seq<Slot>, online: bool)
    requires forall i :: 0 <= i < |slots| ==> VerificarDisponibilidad(citas, fecha, idDoctor, slots[i], online)
    ensures FreeSlots(citas, fecha, idDoctor, slots, online) == slots
    decreases |slots|
  {
    if slots != [] {
      var init := slots[..|slots| - 1];
      FreeSlotsAllFree(citas, fecha, idDoctor, init, online);
      assert slots == init + [slots[|slots| - 1]];
    }
  }

  /** When the point check fails everywhere (a failed lookup, for one), no slot is free. */
  lemma {:induction false} FreeSlotsNoneFree(citas: map<int, Cita>, fecha: Date, idDoctor: int, slots: seq<Slot>, online: bool)
    requires forall i :: 0 <= i < |slots| ==> !VerificarDisponibilidad(citas, fecha, idDoctor, slots[i], online)
    ensures FreeSlots(citas, fecha, idDoctor, slots, online) == []
    decreases |slots|
  {
    if slots != [] {
      FreeSlotsNoneFree(citas, fecha, idDoctor, slots[..|slots| - 1], online);
    }
  }

  /** The labels of a list of slots, in order. */
  function Labels(slots: seq<Slot>): (r: seq<string>)
    ensures |r| == |slots| && forall i :: 0 <= i < |slots| ==> r[i] == Label(slots[i])
    decreases |slots|
  {
    if slots == [] then [] else Labels(slots[..|slots| - 1]) + [Label(slots[|slots| - 1])]
  }

  /** One element of the answer: a doctor and the labels of its free slots. */
  datatype Disponibilidad = Disponibilidad(doctorId: int, doctorNombre: string, especialidad: string, horarios: seq<string>)

  /** The free catalog slots of a doctor, as labels. */
  function Horarios(citas: map<int, Cita>, fecha: Date, catalog: seq<Slot>, idDoctor: int, online: bool): seq<string> {
    Labels(FreeSlots(citas, fecha, idDoctor, catalog, online))
  }

  /** The entry for a doctor: its identifier, `nombre apellido`, its specialty and its free slots. */
  function Entry(citas: map<int, Cita>, fecha: Date, catalog: seq<Slot>, v: DoctorView, online: bool): Disponibilidad {
    Disponibilidad(v.id, v.doctor.nombre + " " + v.doctor.apellido, v.especialidadNombre, Horarios(citas, fecha, catalog, v.id, online))
  }

  /** A doctor's contribution to the answer: its entry, or nothing when no slot is free. */
  function EntryFor(citas: map<int, Cita>, fecha: Date, catalog: seq<Slot>, v: DoctorView, online: bool): seq<Disponibilidad> {
    if Horarios(citas, fecha, catalog, v.id, online) != [] then [Entry(citas, fecha, catalog, v, online)] else []
  }

  /** The answer for a list of doctors: one entry per doctor with a free slot, in the doctors' order. */
  function Offer(citas: map<int, Cita>, fecha: Date, catalog: seq<Slot>, docs: seq<DoctorView>, online: bool): seq<Disponibilidad> {
    FlatMap(docs, v => EntryFor(citas, fecha, catalog, v, online))
  }

  /** The answer for two lists of doctors one after the other is the two answers one after the other. */
  lemma OfferAppend(citas: map<int, Cita>, fecha: Date, catalog: seq<Slot>, a: seq<DoctorView>, b: seq<DoctorView>, online: bool)
    ensures Offer(citas, fecha, catalog, a + b, online) == Offer(citas, fecha, catalog, a, online) + Offer(citas, fecha, catalog, b, online)
  {
    FlatMapAppend(a, b, v => EntryFor(citas, fecha, catalog, v, online));
  }

  /**
   * Each entry belongs to a listed doctor with at least one free slot, and
   * every listed doctor with a free slot has its entry.
   */
  lemma {:induction false} OfferEntries(citas: map<int, Cita>, fecha: Date, catalog: seq<Slot>, docs: seq<DoctorView>, online: bool)
    ensures forall e :: e in Offer(citas, fecha, catalog, docs, online) ==>
              e.horarios != [] && exists v :: v in docs && e == Entry(citas, fecha, catalog, v, online)
    ensures forall v :: v in docs && Horarios(citas, fecha, catalog, v.id, online) != [] ==>
              Entry(citas, fecha, catalog, v, online) in Offer(citas, fecha, catalog, docs, online)
    decreases |docs|
  {
    if docs != [] {
      var init := docs[..|docs| - 1];
      OfferEntries(citas, fecha, catalog, init, online);
      assert docs == init + [docs[|docs| - 1]];
    }
  }

  /** A doctor not listed gets no entry. */
  lemma {:induction false} OfferAvoids(citas: map<int, Cita>, fecha: Date, catalog: seq<Slot>, docs: seq<DoctorView>, x: int,
                                       online: bool)
    requires forall k :: 0 <= k < |docs| ==> docs[k].id != x
    ensures forall e :: e in Offer(citas, fecha, catalog, docs, online) ==> e.doctorId != x
    decreases |docs|
  {
    if docs != [] {
      var init := docs[..|docs| - 1];
      OfferAvoids(citas, fecha, catalog, init, x, online);
    }
  }

  /** Doctors listed once each get at most one entry each: no doctor appears twice in the answer. */
  lemma {:induction false} OfferDistinctDoctors(citas: map<int, Cita>, fecha: Date, catalog: seq<Slot>, docs: seq<DoctorView>,
                                                online: bool)
    requires forall i, j :: 0 <= i < j < |docs| ==> docs[i].id != docs[j].id
    ensures var o := Offer(citas, fecha, catalog, docs, online);
            forall i, j :: 0 <= i < j < |o| ==> o[i].doctorId != o[j].doctorId
    decreases |docs|
  {
    if docs != [] {
      var init, last := docs[..|docs| - 1], docs[|docs| - 1];
      OfferDistinctDoctors(citas, fecha, catalog, init, online);
      OfferAvoids(citas, fecha, catalog, init, last.id, online);
      var before := Offer(citas, fecha, catalog, init, online);
      var o := Offer(citas, fecha, catalog, docs, online);
      assert o == before + EntryFor(citas, fecha, catalog, last, online);
      forall i, j | 0 <= i < j < |o| ensures o[i].doctorId != o[j].doctorId {
        if i < |before| <= j {
          assert o[i] in before;
        }
      }
    }
  }

  /** An entry's slots are exactly the catalog times at which the point check passes, in catalog order. */
  lemma EntrySlots(citas: map<int, Cita>, fecha: Date, v: DoctorView, online: bool)
    ensures var free := FreeSlots(citas, fecha, v.id, Catalog, online);
            && Entry(citas, fecha, Catalog, v, online).horarios == Labels(free)
            && (forall s :: s in free <==> s in Catalog && VerificarDisponibilidad(citas, fecha, v.id, s, online))
            && Increasing(free)
  {
    CatalogIncreasing();
    FreeSlotsExact(citas, fecha, v.id, Catalog, online);
    FreeSlotsIncreasing(citas, fecha, v.id, Catalog, online);
  }

  /** An entry never lists the same time twice. */
  lemma EntryLabelsDistinct(citas: map<int, Cita>, fecha: Date, v: DoctorView, online: bool)
    ensures var h := Entry(citas, fecha, Catalog, v, online).horarios;
            forall i, j :: 0 <= i < j < |h| ==> h[i] != h[j]
  {
    var free := FreeSlots(citas, fecha, v.id, Catalog, online);
    EntrySlots(citas, fecha, v, online);
    CatalogShape();
    forall i, j | 0 <= i < j < |free| ensures Label(free[i]) != Label(free[j]) {
      assert free[i] in Catalog && free[j] in Catalog;
      assert Minutes(free[i]) < Minutes(free[j]);
      LabelsDiffer(free[i], free[j]);
    }
  }

  /** The inner loop of `obtener_horarios_disponibles`: the point check on every offered slot, in order. */
  method FreeLabels(citas: map<int, Cita>, fecha: Date, idDoctor: int, slots: seq<Slot>, online: bool)
    returns (horarios: seq<string>)
    ensures horarios == Labels(FreeSlots(citas, fecha, idDoctor, slots, online))
  {
    horarios := [];
    for j := 0 to |slots|
      invariant horarios == Labels(FreeSlots(citas, fecha, idDoctor, slots[..j], online))
    {
      var hora := slots[j];
      assert slots[..j + 1] == slots[..j] + [hora];
      FreeSlotsSnoc(citas, fecha, idDoctor, slots[..j], hora, online);
      if VerificarDisponibilidad(citas, fecha, idDoctor, hora, online) {
        LabelsSnoc(FreeSlots(citas, fecha, idDoctor, slots[..j], online), hora);
        horarios := horarios + [Label(hora)];
      }
    }
    assert slots[..|slots|] == slots;
  }

  /** The outer loop of `obtener_horarios_disponibles`: one entry per doctor with a free slot, in order. */
  method OfferLoop(citas: map<int, Cita>, fecha: Date, catalog: seq<Slot>, doctores: seq<DoctorView>, online: bool)
    returns (disponibilidad: seq<Disponibilidad>)
    ensures disponibilidad == Offer(citas, fecha, catalog, doctores, online)
  {
    disponibilidad := [];
    for i := 0 to |doctores|
      invariant disponibilidad == Offer(citas, fecha, catalog, doctores[..i], online)
    {
      var doctor := doctores[i];
      var horarios := FreeLabels(citas, fecha, doctor.id, catalog, online);
      assert doctores[..i + 1][..i] == doctores[..i];
      assert Offer(citas, fecha, catalog, doctores[..i + 1], online) == disponibilidad + EntryFor(citas, fecha, catalog, doctor, online);
      if horarios != [] {
        disponibilidad := disponibilidad + [Disponibilidad(doctor.id, doctor.doctor.nombre + " " + doctor.doctor.apellido,
                                                           doctor.especialidadNombre, horarios)];
      }
    }
    assert doctores[..|doctores|] == doctores;
  }

  /**
   * `obtener_horarios_disponibles`: resolve the doctors, then keep, in
   * their order, those with at least one free catalog slot.
   */
  method HorariosDisponibles(db: Clinic, fecha: Date, idDoctor: Option<int>, idEspecialidad: Option<int>, online: bool)
    returns (disponibilidad: seq<Disponibilidad>)
    requires db.Valid()
    ensures disponibilidad == Offer(db.citas, fecha, Catalog, Candidates(db, idDoctor, idEspecialidad, online), online)
    ensures forall i, j :: 0 <= i < j < |disponibilidad| ==> disponibilidad[i].doctorId != disponibilidad[j].doctorId
  {
    var doctores := Candidates(db, idDoctor, idEspecialidad, online);
    disponibilidad := OfferLoop(db.citas, fecha, Catalog, doctores, online);
    OfferDistinctDoctors(db.citas, fecha, Catalog, doctores, online);
  }

  /** A failed lookup frees no slot. */
  lemma FailedLookupFreesNothing(citas: map<int, Cita>, fecha: Date, idDoctor: int, slots: seq<Slot>)
    ensures FreeSlots(citas, fecha, idDoctor, slots, false) == []
  {
    FreeSlotsNoneFree(citas, fecha, idDoctor, slots, false);
  }

  // ------------------------------------------------------------ examples

  /** The appointment used in the examples below: 2024-01-15 at `hour`:00 with doctor 1. */
  function Booking(hour: int, idPaciente: int): Cita {
    Cita(DateTime(Date(2024, 1, 15), Time(hour, 0, 0)), None, idPaciente, 1)
  }

  /** With one appointment at `hour`:00, a slot of its doctor on its day is free iff it is not that time. */
  lemma BookingCheck(citas: map<int, Cita>, idCita: int, hour: int, idPaciente: int, s: Slot)
    requires citas == map[idCita := Booking(hour, idPaciente)]
    ensures VerificarDisponibilidad(citas, Date(2024, 1, 15), 1, s, true) <==> s != Slot(hour, 0)
  {
    assert Blocks(citas[idCita], Date(2024, 1, 15), 1, s) <==> s == Slot(hour, 0);
  }

  /** One appointment at 10:00 takes exactly that slot of that doctor on that day: fifteen remain. */
  lemma OneBookingTakesOneSlot(citas: map<int, Cita>, idCita: int, idPaciente: int)
    requires citas == map[idCita := Booking(10, idPaciente)]
    ensures FreeSlots(citas, Date(2024, 1, 15), 1, Catalog, true) == Catalog[..4] + Catalog[5..]
    ensures |FreeSlots(citas, Date(2024, 1, 15), 1, Catalog, true)| == 15
  {
    var day := Date(2024, 1, 15);
    var before, at, after := Catalog[..4], [Catalog[4]], Catalog[5..];
    assert Catalog == before + at + after;
    assert FreeSlots(citas, day, 1, before, true) == before by {
      CatalogShape();
      forall i | 0 <= i < |before| ensures VerificarDisponibilidad(citas, day, 1, before[i], true) {
        assert Minutes(before[i]) == Minutes(Catalog[i]) < 600;
        BookingCheck(citas, idCita, 10, idPaciente, before[i]);
      }
      FreeSlotsAllFree(citas, day, 1, before, true);
    }
    assert FreeSlots(citas, day, 1, after, true) == after by {
      CatalogShape();
      forall i | 0 <= i < |after| ensures VerificarDisponibilidad(citas, day, 1, after[i], true) {
        assert Minutes(after[i]) == Minutes(Catalog[i + 5]) > 600;
        BookingCheck(citas, idCita, 10, idPaciente, after[i]);
      }
      FreeSlotsAllFree(citas, day, 1, after, true);
    }
    assert FreeSlots(citas, day, 1, at, true) == [] by {
      BookingCheck(citas, idCita, 10, idPaciente, Catalog[4]);
      FreeSlotsNoneFree(citas, day, 1, at, true);
    }
    FreeSlotsAppend(citas, day, 1, before, at, true);
    FreeSlotsAppend(citas, day, 1, before + at, after, true);
  }

  /** The same appointment leaves the next day and the other doctors with all sixteen slots. */
  lemma OneBookingLeavesOthersFree(citas: map<int, Cita>, idCita: int, idPaciente: int, idDoctor: int)
    requires citas == map[idCita := Booking(10, idPaciente)]
    requires idDoctor != 1
    ensures FreeSlots(citas, Date(2024, 1, 16), 1, Catalog, true) == Catalog
    ensures FreeSlots(citas, Date(2024, 1, 15), idDoctor, Catalog, true) == Catalog
  {
    FreeSlotsAllFree(citas, Date(2024, 1, 16), 1, Catalog, true);
    FreeSlotsAllFree(citas, Date(2024, 1, 15), idDoctor, Catalog, true);
  }

  /** Appointments at 08:00 and 14:00 take exactly those two slots of that doctor on that day. */
  lemma TwoBookingsTakeTwoSlots(citas: map<int, Cita>)
    requires citas == map[1 := Booking(8, 1), 2 := Booking(14, 2)]
    ensures FreeSlots(citas, Date(2024, 1, 15), 1, Catalog, true) == Catalog[1..8] + Catalog[9..]
  {
    var day := Date(2024, 1, 15);
    var a, b, c, d := [Catalog[0]], Catalog[1..8], [Catalog[8]], Catalog[9..];
    assert Catalog == a + b + c + d;
    forall s ensures VerificarDisponibilidad(citas, day, 1, s, true) <==> s != Slot(8, 0) && s != Slot(14, 0) {
      assert Blocks(citas[1], day, 1, s) <==> s == Slot(8, 0);
      assert Blocks(citas[2], day, 1, s) <==> s == Slot(14, 0);
    }
    assert FreeSlots(citas, day, 1, b, true) == b by {
      CatalogShape();
      forall i | 0 <= i < |b| ensures VerificarDisponibilidad(citas, day, 1, b[i], true) {
        assert 480 < Minutes(b[i]) == Minutes(Catalog[i + 1]) < 840;
      }
      FreeSlotsAllFree(citas, day, 1, b, true);
    }
    assert FreeSlots(citas, day, 1, d, true) == d by {
      CatalogShape();
      forall i | 0 <= i < |d| ensures VerificarDisponibilidad(citas, day, 1, d[i], true) {
        assert Minutes(d[i]) == Minutes(Catalog[i + 9]) > 840;
      }
      FreeSlotsAllFree(citas, day, 1, d, true);
    }
    FreeSlotsNoneFree(citas, day, 1, a, true);
    FreeSlotsNoneFree(citas, day, 1, c, true);
    FreeSlotsAppend(citas, day, 1, a, b, true);
    FreeSlotsAppend(citas, day, 1, a + b, c, true);
    FreeSlotsAppend(citas, day, 1, a + b + c, d, true);
  }

  /** So fourteen slots remain. */
  lemma TwoBookingsLeaveFourteen(citas: map<int, Cita>)
    requires citas == map[1 := Booking(8, 1), 2 := Booking(14, 2)]
    ensures |FreeSlots(citas, Date(2024, 1, 15), 1, Catalog, true)| == 14
  {
    TwoBookingsTakeTwoSlots(citas);
  }
}
