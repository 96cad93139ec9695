/** The history screen of js/views.js: the date-range filter over the
    loaded rows, and the list updates after deleting and after editing an
    entry, each followed by a re-sort by date, newest first, and a write
    of the list to the per-user cache. */
module History {
  import opened JsValues
  import opened JsonText
  import opened Offline
  import opened Entries

  /** The message of the TypeError `trim` throws on a description that is
      not text, which is what the error line shows. */
  const TrimTypeErrorMsg := "newDesc.trim is not a function"

  // ---------------------------------------------------------------------
  // JavaScript's String() on row values

  /** `String(v)` */
  function JsString(v: Json): string
    decreases v, 1
  {
    match v
    case JNull => "null"
    case JBool(b) => if b then "true" else "false"
    case JNum(n) => NumberText(n)
    case JStr(s) => s
    case JArr(items) => JoinItems(items)
    case JObj(_) => "[object Object]"
  }

  /** `items.join(",")`, where `null` items are written as nothing. */
  function JoinItems(items: seq<Json>): string
    decreases items, 0
  {
    if items == [] then ""
    else
      (if items[0].JNull? then "" else JsString(items[0]))
      + (if |items| == 1 then "" else "," + JoinItems(items[1..]))
  }

  /** `String(row.id)`, by which the handlers find a row. */
  function IdText(row: Json): string {
    match Property(row, "id")
    case None => "undefined"
    case Some(v) => JsString(v)
  }

  // ---------------------------------------------------------------------
  // applyDateFilter

  /** `d < bound` for a row's `data_wpisu` and a non-empty bound from a
      date input: text compares as text, arrays and objects through their
      `String`, and anything else as a number against the bound, which is
      NaN and so never less. */
  function DateBelow(d: Option<Json>, bound: string): bool {
    match d
    case Some(JStr(s)) => LexLess(s, bound)
    case Some(JArr(items)) => LexLess(JsString(JArr(items)), bound)
    case Some(JObj(ms)) => LexLess(JsString(JObj(ms)), bound)
    case _ => false
  }

  /** `d > bound`, in the same way. */
  function DateAbove(d: Option<Json>, bound: string): bool {
    match d
    case Some(JStr(s)) => LexLess(bound, s)
    case Some(JArr(items)) => LexLess(bound, JsString(JArr(items)))
    case Some(JObj(ms)) => LexLess(bound, JsString(JObj(ms)))
    case _ => false
  }

  /** The filter's test: an empty bound is ignored. */
  predicate InRange(row: Json, from: string, to: string) {
    var d := Property(row, "data_wpisu");
    !(from != "" && DateBelow(d, from)) && !(to != "" && DateAbove(d, to))
  }

  /** For a row whose date is text, being in range is `from <= d <= to`
      under text order. */
  lemma InRangeText(row: Json, from: string, to: string, d: string)
    requires Property(row, "data_wpisu") == Some(JStr(d))
    ensures InRange(row, from, to) <==> (from == "" || !LexLess(d, from)) && (to == "" || !LexLess(to, d))
  {
  }

  /** `list.filter(...)` with the filter's test. */
  function Keep(list: seq<Json>, from: string, to: string): (r: seq<Json>)
    ensures |r| <= |list|
  {
    if list == [] then []
    else (if InRange(list[0], from, to) then [list[0]] else []) + Keep(list[1..], from, to)
  }

  /** `r` is `list` with some elements left out, the rest in order. */
  predicate Subsequence(r: seq<Json>, list: seq<Json>)
    decreases |list|
  {
    if r == [] then true
    else if list == [] then false
    else if r[0] == list[0] then Subsequence(r[1..], list[1..])
    else Subsequence(r, list[1..])
  }

  /** `applyDateFilter(list, from, to)` */
  function ApplyDateFilter(list: seq<Json>, from: string, to: string): (r: seq<Json>)
    ensures from == "" && to == "" ==> r == list
  {
    if from == "" && to == "" then list else Keep(list, from, to)
  }

  /** The filter keeps exactly the rows in range, each as often as the
      list holds it, in their order. */
  lemma {:induction false} KeepSpec(list: seq<Json>, from: string, to: string)
    ensures Subsequence(Keep(list, from, to), list)
    ensures forall x :: x in Keep(list, from, to) <==> x in list && InRange(x, from, to)
    ensures forall x :: InRange(x, from, to) ==> multiset(Keep(list, from, to))[x] == multiset(list)[x]
  {
    if list != [] {
      KeepSpec(list[1..], from, to);
      assert list == [list[0]] + list[1..];
      var rest := Keep(list[1..], from, to);
      if InRange(list[0], from, to) {
        assert Keep(list, from, to) == [list[0]] + rest;
        assert Keep(list, from, to)[1..] == rest;
      } else {
        assert Keep(list, from, to) == rest;
        assert rest != [] ==> rest[0] in rest && rest[0] != list[0];
      }
    }
  }

  /** The early return for two empty bounds agrees with filtering: no row
      is out of range then. */
  lemma {:induction false} KeepWithoutBounds(list: seq<Json>)
    ensures Keep(list, "", "") == list
  {
    if list != [] {
      KeepWithoutBounds(list[1..]);
      assert list == [list[0]] + list[1..];
    }
  }

  /** `applyDateFilter` as a whole: the rows in range, in their order and
      with their multiplicity; with two empty bounds, every row. */
  lemma ApplyDateFilterSpec(list: seq<Json>, from: string, to: string)
    ensures Subsequence(ApplyDateFilter(list, from, to), list)
    ensures forall x :: x in ApplyDateFilter(list, from, to) <==> x in list && InRange(x, from, to)
    ensures forall x :: InRange(x, from, to) ==> multiset(ApplyDateFilter(list, from, to))[x] == multiset(list)[x]
  {
    KeepSpec(list, from, to);
    if from == "" && to == "" {
      KeepWithoutBounds(list);
    }
  }

  // ---------------------------------------------------------------------
  // Sorting by date, newest first

  /** A row whose `data_wpisu` is text, as every row the backend serves. */
  predicate Dated(row: Json) {
    Property(row, "data_wpisu").Some? && Property(row, "data_wpisu").value.JStr?
  }

  function DateOf(row: Json): string
    requires Dated(row)
  {
    Property(row, "data_wpisu").value.s
  }

  predicate AllDated(rows: seq<Json>) {
    forall i :: 0 <= i < |rows| ==> Dated(rows[i])
  }

  /** No row is dated before a later one. */
  predicate Descending(rows: seq<Json>)
    requires AllDated(rows)
  {
    forall i, j :: 0 <= i < j < |rows| ==> !LexLess(DateOf(rows[i]), DateOf(rows[j]))
  }

  /** "Not earlier" is transitive, because text order is total. */
  lemma NotLessTrans(a: string, b: string, c: string)
    requires !LexLess(a, b) && !LexLess(b, c)
    ensures !LexLess(a, c)
  {
    if LexLess(a, c) {
      if b == c {
      } else if a == b {
      } else {
        LexLessTotal(b, c);
        LexLessTrans(a, c, b);
      }
    }
  }

  /** One row put into a list that is newest first, before the first row it
      is not older than. */
  function InsertByDate(x: Json, sorted: seq<Json>): (r: seq<Json>)
    requires Dated(x) && AllDated(sorted)
    ensures AllDated(r) && |r| == |sorted| + 1
    ensures multiset(r) == multiset(sorted) + multiset{x}
  {
    if sorted == [] || !LexLess(DateOf(x), DateOf(sorted[0])) then [x] + sorted
    else
      var r := [sorted[0]] + InsertByDate(x, sorted[1..]);
      assert sorted == [sorted[0]] + sorted[1..];
      r
  }

  lemma {:induction false} InsertByDateSorted(x: Json, sorted: seq<Json>)
    requires Dated(x) && AllDated(sorted) && Descending(sorted)
    ensures Descending(InsertByDate(x, sorted))
  {
    if sorted != [] && LexLess(DateOf(x), DateOf(sorted[0])) {
      InsertByDateSorted(x, sorted[1..]);
      InsertBelowHead(x, sorted);
    } else {
      HeadNotBefore(x, sorted);
      ConsDescending(x, sorted);
    }
  }

  /** A row no older than the newest row of a list sorted newest first is
      no older than any of them. */
  lemma HeadNotBefore(x: Json, sorted: seq<Json>)
    requires Dated(x) && AllDated(sorted) && Descending(sorted)
    requires sorted == [] || !LexLess(DateOf(x), DateOf(sorted[0]))
    ensures forall j :: 0 <= j < |sorted| ==> !LexLess(DateOf(x), DateOf(sorted[j]))
  {
    forall j | 1 <= j < |sorted|
      ensures !LexLess(DateOf(x), DateOf(sorted[j]))
    {
      NotLessTrans(DateOf(x), DateOf(sorted[0]), DateOf(sorted[j]));
    }
  }

  /** Putting a row no older than all the others in front keeps the list
      sorted newest first. */
  lemma ConsDescending(h: Json, rows: seq<Json>)
    requires Dated(h) && AllDated(rows) && Descending(rows)
    requires forall j :: 0 <= j < |rows| ==> !LexLess(DateOf(h), DateOf(rows[j]))
    ensures AllDated([h] + rows) && Descending([h] + rows)
  {
    var r := [h] + rows;
    forall i, j | 0 <= i < j < |r|
      ensures !LexLess(DateOf(r[i]), DateOf(r[j]))
    {
      assert r[j] == rows[j - 1];
      if i > 0 {
        assert r[i] == rows[i - 1];
      }
    }
  }

  /** A row of the list after the insertion is the inserted one or was there. */
  lemma InsertedFrom(x: Json, sorted: seq<Json>, y: Json)
    requires Dated(x) && AllDated(sorted) && y in InsertByDate(x, sorted)
    ensures y == x || y in sorted
  {
    assert y in multiset(InsertByDate(x, sorted));
  }

  /** In a list sorted newest first, no later row is newer than the first. */
  lemma BelowHead(sorted: seq<Json>, y: Json)
    requires AllDated(sorted) && Descending(sorted) && sorted != [] && y in sorted[1..]
    ensures !LexLess(DateOf(sorted[0]), DateOf(y))
  {
    var k :| 0 <= k < |sorted[1..]| && sorted[1..][k] == y;
    assert sorted[k + 1] == y;
  }

  /** The recursive case: `x` goes below the newest row, which stays first. */
  lemma InsertBelowHead(x: Json, sorted: seq<Json>)
    requires Dated(x) && AllDated(sorted) && Descending(sorted)
    requires sorted != [] && LexLess(DateOf(x), DateOf(sorted[0]))
    requires Descending(InsertByDate(x, sorted[1..]))
    ensures Descending(InsertByDate(x, sorted))
  {
    var tail := InsertByDate(x, sorted[1..]);
    assert InsertByDate(x, sorted) == [sorted[0]] + tail;
    assert !LexLess(DateOf(sorted[0]), DateOf(x)) by {
      if LexLess(DateOf(sorted[0]), DateOf(x)) {
        LexLessTrans(DateOf(x), DateOf(sorted[0]), DateOf(x));
        LexLessIrreflexive(DateOf(x));
      }
    }
    forall j | 0 <= j < |tail|
      ensures !LexLess(DateOf(sorted[0]), DateOf(tail[j]))
    {
      InsertedFrom(x, sorted[1..], tail[j]);
      if tail[j] != x {
        BelowHead(sorted, tail[j]);
      }
    }
    ConsDescending(sorted[0], tail);
  }

  /** `rows.sort((a, b) => (a.data_wpisu < b.data_wpisu ? 1 : -1))`: the
      same rows, newest first. */
  method SortByDateDesc(rows: seq<Json>) returns (sorted: seq<Json>)
    requires AllDated(rows)
    ensures AllDated(sorted) && Descending(sorted)
    ensures multiset(sorted) == multiset(rows)
  {
    sorted := [];
    for i := 0 to |rows|
      invariant AllDated(sorted) && Descending(sorted)
      invariant multiset(sorted) == multiset(rows[..i])
    {
      InsertByDateSorted(rows[i], sorted);
      sorted := InsertByDate(rows[i], sorted);
      assert rows[..i + 1] == rows[..i] + [rows[i]];
    }
    assert rows[..|rows|] == rows;
  }

  // ---------------------------------------------------------------------
  // Updating a row: `{ ...row, key: value }`

  /** The members with the value of every member named `key` replaced. */
  function ReplaceValue(ms: seq<Member>, key: string, v: Json): (r: seq<Member>)
    ensures |r| == |ms|
  {
    if ms == [] then []
    else
      var last := ms[|ms| - 1];
      ReplaceValue(ms[..|ms| - 1], key, v) + [if last.key == key then Member(key, v) else last]
  }

  lemma {:induction false} ReplaceValueLast(ms: seq<Member>, key: string, v: Json, k: string)
    ensures LastValue(ReplaceValue(ms, key, v), k)
            == if k != key then LastValue(ms, k) else if LastValue(ms, key).Some? then Some(v) else None
  {
    if ms != [] {
      var r := ReplaceValue(ms, key, v);
      assert r[..|r| - 1] == ReplaceValue(ms[..|ms| - 1], key, v);
      ReplaceValueLast(ms[..|ms| - 1], key, v, k);
    }
  }

  /** `{ ...row, key: v }` on an object row: a member that exists keeps
      its place and takes the new value, a missing one is added last. */
  function Put(row: Json, key: string, v: Json): (r: Json)
    requires row.JObj?
    ensures r.JObj?
    ensures Property(r, key) == Some(v)
    ensures forall k :: k != key ==> Property(r, k) == Property(row, k)
  {
    if LastValue(row.members, key).Some? then
      forall k ensures LastValue(ReplaceValue(row.members, key, v), k)
        == if k != key then LastValue(row.members, k) else Some(v) {
        ReplaceValueLast(row.members, key, v, k);
      }
      JObj(ReplaceValue(row.members, key, v))
    else
      var ms := row.members + [Member(key, v)];
      assert ms[..|ms| - 1] == row.members;
      JObj(ms)
  }

  /** The members `{ ...v }` copies: an object's own members, an array's
      or a string's indices, and nothing from `null`, a boolean or a
      number. */
  function SpreadObject(v: Json): (r: Json)
    ensures r.JObj?
    ensures v.JObj? ==> r == v
    ensures v.JArr? ==> |r.members| == |v.items|
    ensures v.JStr? ==> |r.members| == |v.s|
    ensures Property(r, "id") == Property(v, "id")
  {
    match v
    case JObj(_) => v
    case JArr(items) =>
      var ms := seq(|items|, i requires 0 <= i < |items| => Member(NatToString(i), items[i]));
      IndexKeysNoId(ms);
      JObj(ms)
    case JStr(t) =>
      var ms := seq(|t|, i requires 0 <= i < |t| => Member(NatToString(i), JStr([t[i]])));
      IndexKeysNoId(ms);
      JObj(ms)
    case _ => JObj([])
  }

  /** Members named by array indices have no `id`. */
  lemma IndexKeysNoId(ms: seq<Member>)
    requires forall i :: 0 <= i < |ms| ==> ms[i].key == NatToString(i)
    ensures LastValue(ms, "id").None?
  {
  }

  /** `{ ...x, data_wpisu: date, nastroj: mood, opis: desc }` */
  function Edited(row: Json, date: string, mood: Number, desc: string): (r: Json)
    ensures r.JObj? && Dated(r) && DateOf(r) == date
    ensures Property(r, "nastroj") == Some(JNum(mood)) && Property(r, "opis") == Some(JStr(desc))
    ensures forall k :: k != "data_wpisu" && k != "nastroj" && k != "opis" ==>
      Property(r, k) == Property(SpreadObject(row), k)
  {
    Put(Put(Put(SpreadObject(row), "data_wpisu", JStr(date)), "nastroj", JNum(mood)), "opis", JStr(desc))
  }

  // ---------------------------------------------------------------------
  // The list updates

  /** `rows.find((x) => String(x.id) === String(id))` */
  function Find(rows: seq<Json>, id: string): (r: Option<Json>)
    ensures r.None? <==> forall i :: 0 <= i < |rows| ==> IdText(rows[i]) != id
    ensures r.Some? ==> r.value in rows && IdText(r.value) == id
  {
    if rows == [] then None
    else if IdText(rows[0]) == id then Some(rows[0])
    else
      var r := Find(rows[1..], id);
      assert forall i :: 0 < i < |rows| ==> rows[i] == rows[1..][i - 1];
      r
  }

  /** The row found is the first one with that id: it stands at index
      `i`, and no row before it has the id. */
  lemma {:induction false} FindFirst(rows: seq<Json>, id: string) returns (i: nat)
    requires Find(rows, id).Some?
    ensures i < |rows| && rows[i] == Find(rows, id).value
    ensures forall j :: 0 <= j < i ==> IdText(rows[j]) != id
  {
    if IdText(rows[0]) == id {
      i := 0;
    } else {
      var k := FindFirst(rows[1..], id);
      i := k + 1;
      forall j | 0 <= j < i
        ensures IdText(rows[j]) != id
      {
        if j > 0 {
          assert rows[j] == rows[1..][j - 1];
        }
      }
    }
  }

  /** `rows.filter((x) => String(x.id) !== String(id))` */
  function Without(rows: seq<Json>, id: string): (r: seq<Json>)
    ensures AllDated(rows) ==> AllDated(r)
    ensures |r| <= |rows|
  {
    if rows == [] then []
    else (if IdText(rows[0]) == id then [] else [rows[0]]) + Without(rows[1..], id)
  }

  /** The rows with that id are gone and every other row is still there. */
  lemma {:induction false} WithoutMembers(rows: seq<Json>, id: string)
    ensures forall x :: x in Without(rows, id) <==> x in rows && IdText(x) != id
  {
    if rows != [] {
      WithoutMembers(rows[1..], id);
      assert rows == [rows[0]] + rows[1..];
    }
  }

  /** Every row with another id stays as often as it was there. */
  lemma WithoutCounts(rows: seq<Json>, id: string)
    ensures forall x :: IdText(x) != id ==> multiset(Without(rows, id))[x] == multiset(rows)[x]
  {
    forall x | IdText(x) != id
      ensures multiset(Without(rows, id))[x] == multiset(rows)[x]
    {
      WithoutCount(rows, id, x);
    }
  }

  lemma {:induction false} WithoutCount(rows: seq<Json>, id: string, x: Json)
    requires IdText(x) != id
    ensures multiset(Without(rows, id))[x] == multiset(rows)[x]
  {
    if rows != [] {
      WithoutCount(rows[1..], id, x);
      var head := if IdText(rows[0]) == id then [] else [rows[0]];
      var w := Without(rows[1..], id);
      assert Without(rows, id) == head + w;
      HeadThenTail(rows);
      CountConcat([rows[0]], rows[1..], x);
      CountConcat(head, w, x);
    }
  }

  /** What a successful delete leaves, whatever order the sort gives: no
      row with the id, and every other row as often as before. */
  lemma DeleteLeavesOthers(rows: seq<Json>, shown: seq<Json>, id: string)
    requires multiset(shown) == multiset(Without(rows, id))
    ensures forall x :: x in shown <==> x in rows && IdText(x) != id
    ensures forall x :: IdText(x) != id ==> multiset(shown)[x] == multiset(rows)[x]
  {
    var w := Without(rows, id);
    WithoutMembers(rows, id);
    WithoutCounts(rows, id);
    forall x
      ensures x in shown <==> x in w
    {
      assert x in shown <==> x in multiset(shown);
      assert x in w <==> x in multiset(w);
    }
  }

  /** `rows.map((x) => String(x.id) === String(id) ? { ...x, ... } : x)`:
      rows with that id take the new date, mood and description and keep
      every other member; the other rows stay as they are. */
  function EditRows(rows: seq<Json>, id: string, date: string, mood: Number, desc: string): (r: seq<Json>)
    ensures |r| == |rows|
    ensures AllDated(rows) ==> AllDated(r)
    ensures forall i :: 0 <= i < |rows| && IdText(rows[i]) != id ==> r[i] == rows[i]
    ensures forall i :: 0 <= i < |rows| && IdText(rows[i]) == id ==>
              && Dated(r[i]) && DateOf(r[i]) == date
              && Property(r[i], "nastroj") == Some(JNum(mood))
              && Property(r[i], "opis") == Some(JStr(desc))
              && forall k :: k != "data_wpisu" && k != "nastroj" && k != "opis" ==>
                   Property(r[i], k) == Property(SpreadObject(rows[i]), k)
  {
    seq(|rows|, i requires 0 <= i < |rows| =>
      if IdText(rows[i]) == id then Edited(rows[i], date, mood, desc) else rows[i])
  }

  /** An edited row keeps its id, so it is still found by it. */
  lemma EditKeepsId(rows: seq<Json>, id: string, date: string, mood: Number, desc: string)
    ensures forall i :: 0 <= i < |rows| ==> IdText(EditRows(rows, id, date, mood, desc)[i]) == IdText(rows[i])
  {
    var r := EditRows(rows, id, date, mood, desc);
    forall i | 0 <= i < |rows|
      ensures IdText(r[i]) == IdText(rows[i])
    {
      assert Property(r[i], "id") == Property(rows[i], "id");
    }
  }

  /** What the edit prompts give: the new date (an empty or cancelled
      prompt keeps the old one), the mood, and the description to trim (a
      cancelled prompt keeps the old one, or "" when there is none). */
  datatype EditValues = EditValues(date: string, mood: Number, desc: string)

  /** The old description the description prompt falls back on:
      `entry.opis || ""`; `None` when it is a value `trim` cannot handle. */
  function OldDesc(entry: Json): (r: Option<string>)
    ensures Property(entry, "opis").Some? && Property(entry, "opis").value.JStr? ==>
              r == Some(Property(entry, "opis").value.s)
    ensures Property(entry, "opis").None? || !Truthy(Property(entry, "opis").value) ==> r == Some("")
    ensures var v := Property(entry, "opis"); v.Some? && Truthy(v.value) && !v.value.JStr? ==> r.None?
  {
    match Property(entry, "opis")
    case None => Some("")
    case Some(v) => if !Truthy(v) then Some("") else if v.JStr? then Some(v.s) else None
  }

  /** Lines of the edit handler before the update request: the date, mood
      and description prompts' results are combined with the row, and a
      mood that `Number` does not read as 1–10 stops the edit. */
  function EditRequest(entry: Json, dateInput: Option<string>, moodNumber: Field, descInput: Option<string>)
    : (r: Result<EditValues>)
    requires Dated(entry)
    ensures !InScale(moodNumber) ==> r == Err(MoodRangeMsg)
    ensures r.Ok? ==> InScale(moodNumber) && Field.Num(r.value.mood) == moodNumber
    ensures r.Ok? ==> r.value.date == if dateInput.Some? && dateInput.value != "" then dateInput.value else DateOf(entry)
    ensures r.Ok? && descInput.Some? ==> r.value.desc == Trim(descInput.value)
    ensures r.Ok? && descInput.None? ==> OldDesc(entry).Some? && r.value.desc == Trim(OldDesc(entry).value)
    ensures r.Ok? ==> r.value.desc == [] || (!IsTrimmable(r.value.desc[0]) && !IsTrimmable(r.value.desc[|r.value.desc| - 1]))
    ensures InScale(moodNumber) && (descInput.Some? || OldDesc(entry).Some?) ==> r.Ok?
    ensures InScale(moodNumber) && descInput.None? && OldDesc(entry).None? ==> r == Err(TrimTypeErrorMsg)
  {
    var newDate := if dateInput.Some? && dateInput.value != "" then dateInput.value else DateOf(entry);
    var newDesc := if descInput.Some? then Some(descInput.value) else OldDesc(entry);
    if !InScale(moodNumber) then Err(MoodRangeMsg)
    else if newDesc.None? then Err(TrimTypeErrorMsg)
    else Ok(EditValues(newDate, moodNumber.n, Trim(newDesc.value)))
  }

  /** `entry.photo_path` as sent back unchanged with the edit. */
  function PhotoOf(entry: Json): (v: Value)
    ensures v.Undefined? <==> Property(entry, "photo_path").None?
    ensures v.Val? ==> Property(entry, "photo_path") == Some(v.v)
  {
    match Property(entry, "photo_path")
    case None => Undefined
    case Some(p) => Val(p)
  }

  /** The changes the edit sends: energy and stress are `undefined` and so
      left as the server has them. */
  function EditPayload(entry: Json, ev: EditValues): (p: UpdateRow)
    ensures p.energia.Undefined? && p.stres.Undefined?
    ensures p.dataWpisu == Val(JStr(ev.date)) && p.nastroj == Val(JNum(ev.mood))
  {
    UpdatePayload(Val(JStr(ev.date)), Val(JNum(ev.mood)), Undefined, Undefined, Val(JStr(ev.desc)), PhotoOf(entry))
  }

  /** The rows the history screen shows, and the browser storage its cache
      lives in. */
  class HistoryList {
    var entries: seq<Json>
    const storage: LocalStorage

    constructor(rows: seq<Json>, storage: LocalStorage)
      requires AllDated(rows)
      ensures entries == rows && this.storage == storage
    {
      entries := rows;
      this.storage := storage;
    }

    /** The delete button of the row with id `id`: after the confirmation
        and a successful `deleteEntry`, the rows with that id leave the
        list, the rest is re-sorted newest first and written to the
        user's cache. An empty id (the row carries none), an unknown id, a
        declined confirmation or a failed request changes nothing; the
        failure's message is returned. */
    method Delete(id: string, confirmed: bool, online: bool, user: Option<string>,
                  selectError: Option<string>, deleteError: Option<string>) returns (err: Option<string>)
      requires AllDated(entries)
      modifies this, storage
      ensures AllDated(entries)
      ensures id == "" || Find(old(entries), id).None? || !confirmed ==>
                err.None? && entries == old(entries) && storage.items == old(storage.items)
      ensures id != "" && Find(old(entries), id).Some? && confirmed ==>
                var outcome := DeleteEntry(online, user, selectError, deleteError);
                && (outcome.Failed? ==>
                      err == Some(outcome.msg) && entries == old(entries) && storage.items == old(storage.items))
                && (outcome.Done? ==>
                      && err.None? && Descending(entries)
                      && multiset(entries) == multiset(Without(old(entries), id))
                      && storage.items == old(storage.items)[CacheKeyEntries(user) := StoredText(Val(JArr(entries)))])
    {
      if id == "" || Find(entries, id).None? || !confirmed {
        return None;
      }
      var outcome := DeleteEntry(online, user, selectError, deleteError);
      if outcome.Failed? {
        return Some(outcome.msg);
      }
      var rest := Without(entries, id);
      entries := SortByDateDesc(rest);
      storage.CacheSet(CacheKeyEntries(user), Val(JArr(entries)));
      return None;
    }

    /** The edit button of the row with id `id`, given the prompts'
        answers, what `Number` reads from the mood answer and the backend's
        answer to the update: after a successful `updateEntry` the rows with
        that id take the new date, mood and description, the list is
        re-sorted newest first and written to the user's cache. An empty
        id, an unknown id, a mood outside 1–10 or a failed request changes
        nothing. */
    method Edit(id: string, dateInput: Option<string>, moodNumber: Field, descInput: Option<string>,
                online: bool, user: Option<string>, update: (string, string, UpdateRow) -> Option<string>)
      returns (err: Option<string>)
      requires AllDated(entries)
      modifies this, storage
      ensures AllDated(entries)
      ensures id == "" || Find(old(entries), id).None? ==>
                err.None? && entries == old(entries) && storage.items == old(storage.items)
      ensures id != "" && Find(old(entries), id).Some? ==>
                var entry := Find(old(entries), id).value;
                var request := EditRequest(entry, dateInput, moodNumber, descInput);
                && (request.Err? ==>
                      err == Some(request.msg) && entries == old(entries) && storage.items == old(storage.items))
                && (request.Ok? ==>
                      var outcome := UpdateEntry(online, user, id, EditPayload(entry, request.value), update);
                      && (outcome.Failed? ==>
                            err == Some(outcome.msg) && entries == old(entries) && storage.items == old(storage.items))
                      && (outcome.Done? ==>
                            && err.None? && Descending(entries)
                            && multiset(entries)
                               == multiset(EditRows(old(entries), id, request.value.date, request.value.mood, request.value.desc))
                            && storage.items == old(storage.items)[CacheKeyEntries(user) := StoredText(Val(JArr(entries)))]))
    {
      if id == "" {
        return None;
      }
      var found := Find(entries, id);
      if found.None? {
        return None;
      }
      var entry := found.value;
      assert Dated(entry);
      var request := EditRequest(entry, dateInput, moodNumber, descInput);
      if request.Err? {
        return Some(request.msg);
      }
      err := ApplyEdit(id, entry, request.value, online, user, update);
    }

    /** The part of the edit after the prompts: send the update, and on
        success put the new values into the rows with that id, re-sort
        newest first and write the cache. */
    method ApplyEdit(id: string, entry: Json, ev: EditValues, online: bool, user: Option<string>,
                     update: (string, string, UpdateRow) -> Option<string>)
      returns (err: Option<string>)
      requires AllDated(entries)
      modifies this, storage
      ensures AllDated(entries)
      ensures var outcome := UpdateEntry(online, user, id, EditPayload(entry, ev), update);
        && (outcome.Failed? ==>
              err == Some(outcome.msg) && entries == old(entries) && storage.items == old(storage.items))
        && (outcome.Done? ==>
              && err.None? && Descending(entries)
              && multiset(entries) == multiset(EditRows(old(entries), id, ev.date, ev.mood, ev.desc))
              && storage.items == old(storage.items)[CacheKeyEntries(user) := StoredText(Val(JArr(entries)))])
    {
      var outcome := UpdateEntry(online, user, id, EditPayload(entry, ev), update);
      if outcome.Failed? {
        return Some(outcome.msg);
      }
      entries := SortByDateDesc(EditRows(entries, id, ev.date, ev.mood, ev.desc));
      storage.CacheSet(CacheKeyEntries(user), Val(JArr(entries)));
      return None;
    }
  }
}
