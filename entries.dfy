/** The journal-entry helpers of js/views.js: the per-user cache key, the
    local date in `YYYY-MM-DD` form, the validation of the new-entry form,
    and the payloads and error conditions of the insert, update and delete
    requests. The backend's answers are parameters. */
module Entries {
  import opened JsValues
  import opened JsonText
  import opened Offline
  import EntryStore

  const CacheKeyPrefix := "wpisy_cache_"
  const AnonymousId := "anon"

  const OfflineInsertMsg := "Brak internetu – zapis do bazy niedostępny."
  const OfflineUpdateMsg := "Brak internetu – edycja niedostępna offline."
  const OfflineDeleteMsg := "Brak internetu – usuwanie niedostępne offline."
  const SessionLostMsg := "Brak użytkownika w sesji. Zaloguj się ponownie."
  const NoSessionUserMsg := "Brak użytkownika w sesji."
  const MoodRangeMsg := "Nastrój musi być liczbą 1–10."
  const EnergyRangeMsg := "Energia musi być liczbą 1–10."
  const StressRangeMsg := "Stres musi być liczbą 1–10."

  // ---------------------------------------------------------------------
  // Cache key

  /** `cacheKeyEntries()`, given the id the backend reports for the signed-in
      user: the prefix, then the id, or "anon" when there is none. */
  function CacheKeyEntries(userId: Option<string>): (k: string)
    ensures StartsWith(k, CacheKeyPrefix)
    ensures EntryStore.HasUserId(userId) ==> k[|CacheKeyPrefix|..] == userId.value
    ensures !EntryStore.HasUserId(userId) ==> k[|CacheKeyPrefix|..] == AnonymousId
  {
    var id := if EntryStore.HasUserId(userId) then userId.value else AnonymousId;
    assert (CacheKeyPrefix + id)[|CacheKeyPrefix|..] == id;
    CacheKeyPrefix + id
  }

  /** Different signed-in users never share a cache entry. */
  lemma CacheKeysSeparateUsers(a: Option<string>, b: Option<string>)
    requires EntryStore.HasUserId(a) && EntryStore.HasUserId(b) && a != b
    ensures CacheKeyEntries(a) != CacheKeyEntries(b)
  {
    assert CacheKeyEntries(a)[|CacheKeyPrefix|..] != CacheKeyEntries(b)[|CacheKeyPrefix|..];
  }

  /** Signed out, the key is that of a user whose id is "anon". */
  lemma AnonymousKey(a: Option<string>)
    requires !EntryStore.HasUserId(a)
    ensures CacheKeyEntries(a) == CacheKeyEntries(Some(AnonymousId))
  {
  }

  /** The history cache never overwrites the entry store's list. */
  lemma CacheKeyNotStoreKey(u: Option<string>)
    ensures CacheKeyEntries(u) != EntryStore.CacheKey
  {
    assert |EntryStore.CacheKey| < |CacheKeyPrefix|;
  }

  // ---------------------------------------------------------------------
  // Today's date

  /** `String(n).padStart(2, "0")` */
  function PadStart2(s: string): (t: string)
    ensures |s| >= 2 ==> t == s
    ensures |s| < 2 ==> |t| == 2 && t[2 - |s|..] == s
    ensures forall i :: 0 <= i < 2 - |s| ==> t[i] == '0'
    decreases 2 - |s|
  {
    if |s| >= 2 then s else PadStart2("0" + s)
  }

  /** `todayISO()` for the local calendar date the clock reports (the
      month index counts from 0, as `getMonth` does). */
  function TodayIso(year: int, monthIndex: int, day: int): (r: string)
    requires 0 <= monthIndex < 12 && 1 <= day <= 31
    ensures r == IntToString(year) + MonthDay(monthIndex + 1, day)
  {
    TwoDigits(monthIndex + 1);
    TwoDigits(day);
    Regroup(IntToString(year), PadDigits(monthIndex + 1, 2), PadDigits(day, 2));
    IntToString(year) + "-" + PadStart2(NatToString(monthIndex + 1)) + "-" + PadStart2(NatToString(day))
  }

  /** `String(n)` of a number with exactly `w` digits. */
  lemma {:induction false} NatToStringWidth(n: nat, w: nat)
    requires w >= 1 && Pow10(w - 1) <= n < Pow10(w)
    ensures NatToString(n) == PadDigits(n, w)
    decreases w
  {
    if w > 1 {
      assert Pow10(w - 2) <= n / 10 < Pow10(w - 1);
      NatToStringWidth(n / 10, w - 1);
    } else {
      assert PadDigits(n / 10, 0) == [];
    }
  }

  lemma TwoDigits(n: nat)
    requires 1 <= n <= 99
    ensures PadStart2(NatToString(n)) == PadDigits(n, 2)
  {
    if n < 10 {
      NatToStringWidth(n, 1);
      assert PadDigits(n, 2) == PadDigits(0, 1) + [DigitChar(n)];
      assert PadDigits(0, 1) == "0";
    } else {
      NatToStringWidth(n, 2);
    }
  }

  /** The month and day part of a date, dashes included. */
  function MonthDay(month: nat, day: nat): string
    requires month < 100 && day < 100
  {
    "-" + (PadDigits(month, 2) + ("-" + PadDigits(day, 2)))
  }

  /** For four-digit years the date is ten characters: four year digits,
      two month digits and two day digits between dashes. */
  lemma IsoLayout(year: int, monthIndex: int, day: int)
    requires 1000 <= year <= 9999 && 0 <= monthIndex < 12 && 1 <= day <= 31
    ensures TodayIso(year, monthIndex, day) == PadDigits(year, 4) + MonthDay(monthIndex + 1, day)
    ensures |TodayIso(year, monthIndex, day)| == 10
  {
    YearText(year);
    TwoDigits(monthIndex + 1);
    TwoDigits(day);
    Regroup(PadDigits(year, 4), PadDigits(monthIndex + 1, 2), PadDigits(day, 2));
  }

  lemma YearText(year: int)
    requires 1000 <= year <= 9999
    ensures IntToString(year) == PadDigits(year, 4)
  {
    assert Pow10(3) == 1000 && Pow10(4) == 10000;
    NatToStringWidth(year, 4);
  }

  lemma Regroup(y: string, m: string, d: string)
    ensures y + "-" + m + "-" + d == y + ("-" + (m + ("-" + d)))
  {
  }

  /** Equal-width digit strings compare as their values do. */
  lemma {:induction false} LexLessPadDigits(x: nat, y: nat, w: nat)
    requires x < Pow10(w) && y < Pow10(w)
    ensures LexLess(PadDigits(x, w), PadDigits(y, w)) == (x < y)
    decreases w
  {
    if w > 0 {
      DropDigit(x, w);
      DropDigit(y, w);
      var p, q := PadDigits(x / 10, w - 1), PadDigits(y / 10, w - 1);
      LexLessAppend(p, q, [DigitChar(x % 10)], [DigitChar(y % 10)]);
      LastDigitOrder(x, y);
      if p == q {
        PadDigitsValue(x / 10, w - 1);
        PadDigitsValue(y / 10, w - 1);
      } else {
        LexLessPadDigits(x / 10, y / 10, w - 1);
      }
    }
  }

  /** Dropping the last digit of a `w`-digit number leaves `w - 1` digits. */
  lemma DropDigit(x: nat, w: nat)
    requires w > 0 && x < Pow10(w)
    ensures x / 10 < Pow10(w - 1)
    ensures PadDigits(x, w) == PadDigits(x / 10, w - 1) + [DigitChar(x % 10)]
  {
    assert Pow10(w) == 10 * Pow10(w - 1);
  }

  /** Numbers with the same leading digits compare by their last digit;
      otherwise by their leading digits. */
  lemma LastDigitOrder(x: nat, y: nat)
    ensures x / 10 == y / 10 ==> (LexLess([DigitChar(x % 10)], [DigitChar(y % 10)]) == (x < y))
    ensures x / 10 != y / 10 ==> ((x / 10 < y / 10) == (x < y))
  {
    assert x == 10 * (x / 10) + x % 10 && y == 10 * (y / 10) + y % 10;
  }

  /** `y1-m1-d1` comes before `y2-m2-d2` in the calendar. */
  predicate CalendarBefore(y1: int, m1: int, d1: int, y2: int, m2: int, d2: int) {
    y1 < y2 || (y1 == y2 && (m1 < m2 || (m1 == m2 && d1 < d2)))
  }

  /** The reason the date filter and the history order may compare dates
      as text: for four-digit years, text order is calendar order. */
  lemma IsoOrderIsCalendarOrder(y1: int, m1: int, d1: int, y2: int, m2: int, d2: int)
    requires 1000 <= y1 <= 9999 && 0 <= m1 < 12 && 1 <= d1 <= 31
    requires 1000 <= y2 <= 9999 && 0 <= m2 < 12 && 1 <= d2 <= 31
    ensures LexLess(TodayIso(y1, m1, d1), TodayIso(y2, m2, d2)) == CalendarBefore(y1, m1, d1, y2, m2, d2)
  {
    IsoLayout(y1, m1, d1);
    IsoLayout(y2, m2, d2);
    DateOrder(y1, m1 + 1, d1, y2, m2 + 1, d2);
    assert CalendarBefore(y1, m1 + 1, d1, y2, m2 + 1, d2) == CalendarBefore(y1, m1, d1, y2, m2, d2);
  }

  lemma DateOrder(y1: nat, m1: nat, d1: nat, y2: nat, m2: nat, d2: nat)
    requires y1 < 10000 && m1 < 100 && d1 < 100 && y2 < 10000 && m2 < 100 && d2 < 100
    ensures LexLess(PadDigits(y1, 4) + MonthDay(m1, d1), PadDigits(y2, 4) + MonthDay(m2, d2))
            == CalendarBefore(y1, m1, d1, y2, m2, d2)
  {
    assert Pow10(4) == 10000;
    LexLessPadDigits(y1, y2, 4);
    LexLessAppend(PadDigits(y1, 4), PadDigits(y2, 4), MonthDay(m1, d1), MonthDay(m2, d2));
    MonthDayOrder(m1, d1, m2, d2);
    if PadDigits(y1, 4) == PadDigits(y2, 4) {
      PadDigitsValue(y1, 4);
      PadDigitsValue(y2, 4);
    }
  }

  lemma MonthDayOrder(m1: nat, d1: nat, m2: nat, d2: nat)
    requires m1 < 100 && d1 < 100 && m2 < 100 && d2 < 100
    ensures LexLess(MonthDay(m1, d1), MonthDay(m2, d2)) == (m1 < m2 || (m1 == m2 && d1 < d2))
  {
    var mm1, mm2 := PadDigits(m1, 2), PadDigits(m2, 2);
    var dd1, dd2 := PadDigits(d1, 2), PadDigits(d2, 2);
    assert Pow10(2) == 100;
    LexLessPadDigits(m1, m2, 2);
    LexLessPadDigits(d1, d2, 2);
    LexLessAppend("-", "-", mm1 + ("-" + dd1), mm2 + ("-" + dd2));
    LexLessAppend(mm1, mm2, "-" + dd1, "-" + dd2);
    LexLessAppend("-", "-", dd1, dd2);
    if mm1 == mm2 {
      PadDigitsValue(m1, 2);
      PadDigitsValue(m2, 2);
    }
  }

  // ---------------------------------------------------------------------
  // The new-entry form

  /** What the form submits once validated. */
  datatype EntryForm = EntryForm(dataWpisu: string, nastroj: Number, energia: Number, stres: Number, opis: string)

  /** `Number.isFinite(x) && 1 <= x <= 10` */
  predicate InScale(x: Field) {
    x.Num? && 1.0 <= x.n.Value() <= 10.0
  }

  /** `String(fd.get(name) || "").trim()` for a text field that may be absent. */
  function FieldText(raw: Option<string>): (t: string)
    ensures raw.None? ==> t == ""
    ensures t == [] || (!IsTrimmable(t[0]) && !IsTrimmable(t[|t| - 1]))
  {
    Trim(if raw.Some? then raw.value else "")
  }

  /** The submit handler's checks, given the raw date and description
      fields and what `Number` makes of the three scale fields: the first
      field out of 1–10 in the order mood, energy, stress is reported, and
      nothing is submitted. */
  function ValidateForm(date: Option<string>, nastroj: Field, energia: Field, stres: Field, opis: Option<string>)
    : (r: Result<EntryForm>)
    ensures r.Ok? <==> InScale(nastroj) && InScale(energia) && InScale(stres)
    ensures !InScale(nastroj) ==> r == Err(MoodRangeMsg)
    ensures InScale(nastroj) && !InScale(energia) ==> r == Err(EnergyRangeMsg)
    ensures InScale(nastroj) && InScale(energia) && !InScale(stres) ==> r == Err(StressRangeMsg)
    ensures r.Ok? ==> && Field.Num(r.value.nastroj) == nastroj
                      && Field.Num(r.value.energia) == energia
                      && Field.Num(r.value.stres) == stres
                      && r.value.dataWpisu == FieldText(date)
                      && r.value.opis == FieldText(opis)
  {
    if !InScale(nastroj) then Err(MoodRangeMsg)
    else if !InScale(energia) then Err(EnergyRangeMsg)
    else if !InScale(stres) then Err(StressRangeMsg)
    else Ok(EntryForm(FieldText(date), nastroj.n, energia.n, stres.n, FieldText(opis)))
  }

  // ---------------------------------------------------------------------
  // Payloads

  /** `x ? x : null` */
  function NullIfFalsy(v: Value): (r: Json)
    ensures r == JNull || (v.Val? && r == v.v && Truthy(r))
    ensures v.Val? && Truthy(v.v) ==> r == v.v
  {
    if v.Val? && Truthy(v.v) then v.v else JNull
  }

  /** The row `insertEntry` sends; `None` stands for `null`. */
  datatype InsertRow = InsertRow(userId: string, dataWpisu: string, nastroj: Number, energia: Number,
                                 stres: Number, opis: Option<string>, photoPath: Option<string>)

  /** The changes `updateEntry` sends; an `Undefined` field is not sent. */
  datatype UpdateRow = UpdateRow(dataWpisu: Value, nastroj: Value, energia: Value, stres: Value,
                                 opis: Json, photoPath: Json)

  /** `opis ? opis : null` for text. */
  function NonEmpty(s: Option<string>): (r: Option<string>)
    ensures r.None? <==> s.None? || s.value == ""
    ensures r.Some? ==> r == s
  {
    if s.Some? && s.value != "" then s else None
  }

  /** The row `insertEntry` sends: it belongs to the session user, carries
      the validated fields, and an empty description or photo path becomes
      `null`. */
  function InsertPayload(userId: string, form: EntryForm, photoPath: Option<string>): (p: InsertRow)
    ensures p.userId == userId && p.dataWpisu == form.dataWpisu
    ensures p.nastroj == form.nastroj && p.energia == form.energia && p.stres == form.stres
    ensures p.opis.None? <==> form.opis == ""
    ensures p.opis.Some? ==> p.opis.value == form.opis
    ensures p.photoPath.None? <==> photoPath.None? || photoPath.value == ""
    ensures p.photoPath.Some? ==> p.photoPath == photoPath
  {
    InsertRow(userId, form.dataWpisu, form.nastroj, form.energia, form.stres, NonEmpty(Some(form.opis)),
              NonEmpty(photoPath))
  }

  /** The changes `updateEntry` sends: the given fields, and the
      description and photo path with any falsy value sent as `null`. */
  function UpdatePayload(date: Value, nastroj: Value, energia: Value, stres: Value, opis: Value, photoPath: Value)
    : (p: UpdateRow)
    ensures p.dataWpisu == date && p.nastroj == nastroj && p.energia == energia && p.stres == stres
    ensures p.opis == JNull || Truthy(p.opis)
    ensures p.photoPath == JNull || Truthy(p.photoPath)
    ensures opis.Val? && Truthy(opis.v) ==> p.opis == opis.v
    ensures photoPath.Val? && Truthy(photoPath.v) ==> p.photoPath == photoPath.v
  {
    UpdateRow(date, nastroj, energia, stres, NullIfFalsy(opis), NullIfFalsy(photoPath))
  }

  // ---------------------------------------------------------------------
  // Requests

  /** `insertEntry(fields)`, given whether the browser is online, the id of
      the session user and the backend's error, if any, for a row. */
  function InsertEntry(online: bool, user: Option<string>, form: EntryForm, photoPath: Option<string>,
                       insert: InsertRow -> Option<string>): (r: Outcome)
    ensures r.Done? <==> online && EntryStore.HasUserId(user) && insert(InsertPayload(user.value, form, photoPath)).None?
    ensures !online ==> r == Failed(OfflineInsertMsg)
    ensures online && !EntryStore.HasUserId(user) ==> r == Failed(SessionLostMsg)
    ensures online && EntryStore.HasUserId(user) && insert(InsertPayload(user.value, form, photoPath)).Some? ==>
              r == Failed(insert(InsertPayload(user.value, form, photoPath)).value)
  {
    if !online then Failed(OfflineInsertMsg)
    else if !EntryStore.HasUserId(user) then Failed(SessionLostMsg)
    else
      match insert(InsertPayload(user.value, form, photoPath))
      case Some(msg) => Failed(msg)
      case None => Done
  }

  /** `updateEntry(id, fields)`: the update of row `id` of the session user
      with `payload`, which the backend answers with an error or not. */
  function UpdateEntry(online: bool, user: Option<string>, id: string, payload: UpdateRow,
                       update: (string, string, UpdateRow) -> Option<string>): (r: Outcome)
    ensures r.Done? <==> online && EntryStore.HasUserId(user) && update(id, user.value, payload).None?
    ensures !online ==> r == Failed(OfflineUpdateMsg)
    ensures online && !EntryStore.HasUserId(user) ==> r == Failed(SessionLostMsg)
    ensures online && EntryStore.HasUserId(user) && update(id, user.value, payload).Some? ==>
              r == Failed(update(id, user.value, payload).value)
  {
    if !online then Failed(OfflineUpdateMsg)
    else if !EntryStore.HasUserId(user) then Failed(SessionLostMsg)
    else
      match update(id, user.value, payload)
      case Some(msg) => Failed(msg)
      case None => Done
  }

  /** `deleteEntry(id)`: the photo-path lookup and then the delete of row
      `id` of the session user, each of which may fail; removing the photo
      afterwards only logs a warning when it fails. */
  function DeleteEntry(online: bool, user: Option<string>, selectError: Option<string>, deleteError: Option<string>)
    : (r: Outcome)
    ensures r.Done? <==> online && EntryStore.HasUserId(user) && selectError.None? && deleteError.None?
    ensures !online ==> r == Failed(OfflineDeleteMsg)
    ensures online && !EntryStore.HasUserId(user) ==> r == Failed(NoSessionUserMsg)
    ensures online && EntryStore.HasUserId(user) && selectError.Some? ==> r == Failed(selectError.value)
    ensures online && EntryStore.HasUserId(user) && selectError.None? && deleteError.Some? ==>
              r == Failed(deleteError.value)
  {
    if !online then Failed(OfflineDeleteMsg)
    else if !EntryStore.HasUserId(user) then Failed(NoSessionUserMsg)
    else if selectError.Some? then Failed(selectError.value)
    else if deleteError.Some? then Failed(deleteError.value)
    else Done
  }

  /** Offline, no request of the three reaches the backend, whatever it
      would have answered. */
  lemma OfflineNeverWrites(user: Option<string>, form: EntryForm, photoPath: Option<string>, id: string,
                           payload: UpdateRow, insert: InsertRow -> Option<string>,
                           update: (string, string, UpdateRow) -> Option<string>, selectError: Option<string>,
                           deleteError: Option<string>)
    ensures InsertEntry(false, user, form, photoPath, insert) == Failed(OfflineInsertMsg)
    ensures UpdateEntry(false, user, id, payload, update) == Failed(OfflineUpdateMsg)
    ensures DeleteEntry(false, user, selectError, deleteError) == Failed(OfflineDeleteMsg)
  {
  }
}
