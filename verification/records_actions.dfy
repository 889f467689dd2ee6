/** The records page's save and delete handlers as one pure step each:
    the required-field check, the edit merge, the store call made, the
    reply of the store (a parameter), and which state action, if any, is
    dispatched in consequence. */
module RecordsActions {
  import opened Types
  import opened JsString
  import opened AppointmentForm

  /** What the save handler receives: any of the form's properties,
      `None` for a missing one. */
  datatype Patch = Patch(
    date: Option<string>,
    time: Option<string>,
    carInfo: Option<string>,
    service: Option<string>,
    clientName: Option<string>,
    clientPhone: Option<string>,
    status: Option<Status>
  )

  /** The form hands over all of its properties. */
  function ToPatch(fd: FormData): Patch {
    Patch(Some(fd.date), Some(fd.time), Some(fd.carInfo), Some(fd.service),
          Some(fd.clientName), Some(fd.clientPhone), Some(fd.status))
  }

  /** A property that is present and not `''`. */
  predicate Truthy(o: Option<string>) {
    o.Some? && o.value != []
  }

  /** The handler's own check of the four required properties. */
  predicate RequiredPresent(p: Patch) {
    Truthy(p.date) && Truthy(p.time) && Truthy(p.carInfo) && Truthy(p.service)
  }

  /** `{ ...selected, ...formData }`: the form's properties over the
      record being edited. */
  function Merge(selected: Appointment, p: Patch): (r: Appointment)
    ensures r.id == selected.id && r.createdAt == selected.createdAt
    ensures r.date == p.date.GetOr(selected.date)
    ensures r.time == p.time.GetOr(selected.time)
    ensures r.carInfo == p.carInfo.GetOr(selected.carInfo)
    ensures r.service == p.service.GetOr(selected.service)
    ensures r.status == p.status.GetOr(selected.status)
    ensures r.clientName == (if p.clientName.Some? then p.clientName else selected.clientName)
    ensures r.clientPhone == (if p.clientPhone.Some? then p.clientPhone else selected.clientPhone)
  {
    Appointment(
      selected.id,
      if p.date.Some? then p.date.value else selected.date,
      if p.time.Some? then p.time.value else selected.time,
      if p.carInfo.Some? then p.carInfo.value else selected.carInfo,
      if p.service.Some? then p.service.value else selected.service,
      if p.clientName.Some? then p.clientName else selected.clientName,
      if p.clientPhone.Some? then p.clientPhone else selected.clientPhone,
      if p.status.Some? then p.status.value else selected.status,
      selected.createdAt)
  }

  /** The record sent for creation: the form's properties plus the
      clock reading; the store assigns the id. */
  datatype NewRecord = NewRecord(fields: Patch, createdAt: int)

  /** The remote store's replies: a created record or `null` for `add`,
      `true`/`false` for `update` and `delete`, or an exception. */
  datatype Store = Store(
    add: NewRecord -> Reply<Option<Appointment>>,
    update: Appointment -> Reply<bool>,
    delete: string -> Reply<bool>
  )

  datatype Request = AddRequest(record: NewRecord) | UpdateRequest(appointment: Appointment) | DeleteRequest(id: string)

  /** The state actions the page dispatches. */
  datatype Action = AddAppointment(added: Appointment) | UpdateAppointment(updated: Appointment) | RemoveAppointment(removed: string)

  /** The toast shown, if any. */
  datatype Notice = Quiet | Success | Error

  /** The page's modal and saving flags. */
  datatype Page = Page(showAdd: bool, showEdit: bool, selected: Option<Appointment>, saving: bool)

  /** One handler run: the page afterwards, the store call made, the
      action dispatched, the toast. */
  datatype Effect = Effect(page: Page, request: Option<Request>, action: Option<Action>, notice: Notice)

  /** The store reported success for `req`. */
  predicate Succeeded(store: Store, req: Request) {
    match req
    case AddRequest(r) => store.add(r).Returned? && store.add(r).value.Some?
    case UpdateRequest(a) => store.update(a) == Returned(true)
    case DeleteRequest(id) => store.delete(id) == Returned(true)
  }

  /** `handleAddAppointment`: opens the add modal; the selection is left as it is. */
  function OpenAdd(page: Page): (r: Page)
    ensures r.showAdd
    ensures r.showEdit == page.showEdit && r.selected == page.selected && r.saving == page.saving
  {
    page.(showAdd := true)
  }

  /** `handleEditAppointment`: selects `a` and opens the edit modal. */
  function OpenEdit(page: Page, a: Appointment): (r: Page)
    ensures r.showEdit && r.selected == Some(a)
    ensures r.showAdd == page.showAdd && r.saving == page.saving
  {
    page.(selected := Some(a), showEdit := true)
  }

  /** `handleCloseModal`: both modals shut and the selection dropped. */
  function CloseModal(page: Page): (r: Page)
    ensures !r.showAdd && !r.showEdit && r.selected.None? && r.saving == page.saving
  {
    page.(showAdd := false, showEdit := false, selected := None)
  }

  /** The edit branch is taken only with the edit modal open on a record. */
  predicate Editing(page: Page) {
    page.showEdit && page.selected.Some?
  }

  /** `handleSaveAppointment`; `now` is the clock reading for `createdAt`. */
  function Save(page: Page, p: Patch, now: int, store: Store): (e: Effect)
    ensures !RequiredPresent(p) ==> e == Effect(page, None, None, Error)
    ensures RequiredPresent(p) ==> !e.page.saving && e.request.Some?
    ensures RequiredPresent(p) && Editing(page) ==>
      e.request == Some(UpdateRequest(Merge(page.selected.value, p)))
    ensures RequiredPresent(p) && !Editing(page) ==>
      e.request == Some(AddRequest(NewRecord(p, now)))
    ensures e.action.Some? <==> e.request.Some? && Succeeded(store, e.request.value)
    ensures e.action.Some? ==>
      && e.page == CloseModal(page).(saving := false)
      && e.notice == Success
      && match e.request.value
         case AddRequest(r) => e.action.value == AddAppointment(store.add(r).value.value)
         case UpdateRequest(a) => e.action.value == UpdateAppointment(a)
         case DeleteRequest(_) => false
    ensures e.request.Some? && e.action.None? ==> e.page == page.(saving := false) && e.notice == Error
  {
    if !RequiredPresent(p) then Effect(page, None, None, Error)
    else if Editing(page) then
      var updated := Merge(page.selected.value, p);
      var req := UpdateRequest(updated);
      match store.update(updated)
      case Returned(true) =>
        Effect(CloseModal(page).(saving := false), Some(req), Some(UpdateAppointment(updated)), Success)
      case Returned(false) => Effect(page.(saving := false), Some(req), None, Error)
      case Threw => Effect(page.(saving := false), Some(req), None, Error)
    else
      var record := NewRecord(p, now);
      var req := AddRequest(record);
      match store.add(record)
      case Returned(Some(added)) =>
        Effect(CloseModal(page).(saving := false), Some(req), Some(AddAppointment(added)), Success)
      case Returned(None) => Effect(page.(saving := false), Some(req), None, Error)
      case Threw => Effect(page.(saving := false), Some(req), None, Error)
  }

  /** `handleDeleteAppointment`; `confirmed` is the user's answer to the
      confirmation dialog. */
  function Delete(page: Page, id: string, confirmed: bool, store: Store): (e: Effect)
    ensures e.page == page
    ensures e.request.Some? <==> confirmed
    ensures confirmed ==> e.request == Some(DeleteRequest(id))
    ensures e.action.Some? <==> confirmed && store.delete(id) == Returned(true)
    ensures e.action.Some? ==> e.action == Some(RemoveAppointment(id)) && e.notice == Success
    ensures !confirmed ==> e.notice == Quiet
    ensures confirmed && e.action.None? ==> e.notice == Error
  {
    if !confirmed then Effect(page, None, None, Quiet)
    else
      match store.delete(id)
      case Returned(true) => Effect(page, Some(DeleteRequest(id)), Some(RemoveAppointment(id)), Success)
      case Returned(false) => Effect(page, Some(DeleteRequest(id)), None, Error)
      case Threw => Effect(page, Some(DeleteRequest(id)), None, Error)
  }

  /** Form data that passes the form's validation also passes the page's
      required-field check, so the save handler always calls the store. */
  lemma ValidFormPassesPageCheck(fd: FormData, page: Page, now: int, store: Store)
    ensures Validate(fd).ok ==> RequiredPresent(ToPatch(fd))
    ensures Validate(fd).ok ==> Save(page, ToPatch(fd), now, store).request.Some?
  {
    var v := Validate(fd);
    if v.ok {
      assert CarInfoField !in v.errors && ServiceField !in v.errors;
      assert !AllWhitespace(fd.carInfo) && !AllWhitespace(fd.service);
    }
  }

  /** The converse fails: the page's check does not trim, so a blank car
      description gets past it but not past the form. */
  lemma PageCheckLooserThanForm()
    ensures var fd := FormData("2024-06-01", "09:00", " ", "Wash", [], [], Scheduled);
      RequiredPresent(ToPatch(fd)) && !Validate(fd).ok
  {
    var fd := FormData("2024-06-01", "09:00", " ", "Wash", [], [], Scheduled);
    assert AllWhitespace(fd.carInfo);
  }

  /** Submitting a form the user has not changed re-sends the record as
      it was, except that an absent client name or phone becomes `''`. */
  lemma UnchangedEditRoundTrip(current: FormData, a: Appointment)
    ensures Merge(a, ToPatch(Prefill(current, Some(a))))
         == a.(clientName := Some(a.clientName.GetOr([])), clientPhone := Some(a.clientPhone.GetOr([])))
  {
  }

  /** Merging nothing changes nothing; merging the same data twice is
      merging it once. */
  lemma MergeLaws(a: Appointment, p: Patch)
    ensures Merge(a, Patch(None, None, None, None, None, None, None)) == a
    ensures Merge(Merge(a, p), p) == Merge(a, p)
  {
  }

  /** Once the record is stored, a later edit keeps the store's id and the
      original creation time whatever the form holds. */
  lemma EditKeepsIdentity(page: Page, fd: FormData, now: int, store: Store)
    requires Editing(page)
    ensures Validate(fd).ok ==>
      var e := Save(page, ToPatch(fd), now, store);
      && e.request.Some?
      && e.request.value.UpdateRequest?
      && e.request.value.appointment.id == page.selected.value.id
      && e.request.value.appointment.createdAt == page.selected.value.createdAt
      && e.request.value.appointment.carInfo == fd.carInfo
      && e.request.value.appointment.service == fd.service
  {
    ValidFormPassesPageCheck(fd, page, now, store);
  }

  /** A store that answers `add` with `null` leaves the collection alone,
      keeps the modal open and shows an error. */
  lemma AddNullKeepsModalOpen(page: Page, p: Patch, now: int, store: Store)
    requires RequiredPresent(p) && !Editing(page) && page.showAdd
    requires store.add(NewRecord(p, now)) == Returned(None)
    ensures var e := Save(page, p, now, store);
      e.action.None? && e.page.showAdd && e.notice == Error && !e.page.saving
  {
  }

  /** Closing the modal undoes opening either one. */
  lemma CloseUndoesOpen(page: Page, a: Appointment)
    requires !page.showAdd && !page.showEdit && page.selected.None?
    ensures CloseModal(OpenAdd(page)) == page
    ensures CloseModal(OpenEdit(page, a)) == page
  {
  }

  /** Saving from the edit modal opened on `a` sends `a` merged with the
      form's properties; saving from the add modal of a page with nothing
      selected sends a new record. */
  lemma OpenThenSave(page: Page, a: Appointment, p: Patch, now: int, store: Store)
    requires RequiredPresent(p)
    ensures Save(OpenEdit(page, a), p, now, store).request == Some(UpdateRequest(Merge(a, p)))
    ensures !page.showEdit ==>
      Save(OpenAdd(page), p, now, store).request == Some(AddRequest(NewRecord(p, now)))
  {
  }
}
