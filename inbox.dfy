/** The message inbox of `server.js`: the array stored in `messages.json` and
    the list computations its handlers perform on it. */
module Inbox {
  import opened Js
  import opened JsNumbers
  import opened DataFiles

  const MessagesFile := "messages.json"

  /** The inbox as `readJSON("messages.json", [])` hands it to a handler:
      the stored array (empty when the file is missing), or `None` when the
      file holds something other than an array. */
  function StoredList(files: Files): (r: Option<seq<Json>>)
    ensures r.Some? <==> InboxWellFormed(files)
    ensures MessagesFile !in files ==> r == Some([])
    ensures MessagesFile in files && r.Some? ==> files[MessagesFile] == Arr(r.value)
  {
    var v := Seed(files, MessagesFile, Arr([]))[MessagesFile];
    if v.Arr? then Some(v.items) else None
  }

  /** The inbox file, when it exists, holds an array. */
  predicate InboxWellFormed(files: Files) {
    MessagesFile in files ==> files[MessagesFile].Arr?
  }

  /** A well-formed inbox can always be read as a list; a missing one reads as empty. */
  lemma WellFormedReadable(files: Files)
    requires InboxWellFormed(files)
    ensures StoredList(files).Some?
    ensures MessagesFile !in files ==> StoredList(files) == Some([])
    ensures MessagesFile in files ==> StoredList(files) == Some(files[MessagesFile].items)
  {
  }

  // ---------------------------------------------------------------- mark-read

  /** `list.findIndex(m => m.id == id)`: the index of the first message with
      that id, or -1 when there is none. */
  function FirstMatch(list: seq<Json>, id: Json): (r: int)
    ensures -1 <= r < |list|
    ensures r == -1 <==> forall k :: 0 <= k < |list| ==> !HasId(list[k], id)
    ensures r >= 0 ==> HasId(list[r], id) && forall k :: 0 <= k < r ==> !HasId(list[k], id)
    decreases |list|
  {
    if list == [] then -1
    else if HasId(list[0], id) then 0
    else
      var r := FirstMatch(list[1..], id);
      assert forall k :: 1 <= k < |list| ==> list[k] == list[1..][k - 1];
      if r == -1 then -1 else r + 1
  }

  /** The scan `findIndex` performs. */
  method FindIndex(list: seq<Json>, id: Json) returns (index: int)
    ensures index == FirstMatch(list, id)
  {
    index := 0;
    while index < |list|
      invariant 0 <= index <= |list|
      invariant forall k :: 0 <= k < index ==> !HasId(list[k], id)
    {
      if HasId(list[index], id) {
        return;
      }
      index := index + 1;
    }
    index := -1;
  }

  /** `m.read` is `true`. */
  predicate IsRead(m: Json) {
    Prop(m, "read") == Some(Bool(true))
  }

  /** The list after `list[i].read = true`. */
  function MarkAt(list: seq<Json>, i: int): (r: seq<Json>)
    requires 0 <= i < |list| && list[i].Obj?
    ensures |r| == |list| && IsRead(r[i])
    ensures forall key :: key != "read" ==> Prop(r[i], key) == Prop(list[i], key)
    ensures forall k :: 0 <= k < |list| && k != i ==> r[k] == list[k]
  {
    list[i := Obj(list[i].fields["read" := Bool(true)])]
  }

  /** Marking the first match sets `read` on that message alone: length,
      order, every other message and every other property stay as they were.
      The message still matches first, so marking it again is a no-op. */
  lemma MarkFirstMatch(list: seq<Json>, id: Json)
    requires FirstMatch(list, id) >= 0
    ensures var i := FirstMatch(list, id);
      && list[i].Obj?
      && var after := MarkAt(list, i);
      && |after| == |list|
      && IsRead(after[i])
      && (forall key :: key != "read" ==> Prop(after[i], key) == Prop(list[i], key))
      && (forall k :: 0 <= k < |list| && k != i ==> after[k] == list[k])
      && FirstMatch(after, id) == i
      && MarkAt(after, i) == after
  {
    var i := FirstMatch(list, id);
    var after := MarkAt(list, i);
    assert Prop(after[i], "id") == Prop(list[i], "id");
    assert HasId(after[i], id);
    assert forall k :: 0 <= k < i ==> after[k] == list[k];
    assert after[i].fields["read" := Bool(true)] == after[i].fields;
  }

  // ---------------------------------------------------------------- delete

  /** `list.filter(m => m.id != id)`. */
  function RemoveId(list: seq<Json>, id: Json): (r: seq<Json>)
    ensures |r| <= |list|
    ensures forall m :: m in r <==> m in list && !HasId(m, id)
    decreases |list|
  {
    if list == [] then []
    else if HasId(list[0], id) then RemoveId(list[1..], id)
    else [list[0]] + RemoveId(list[1..], id)
  }

  /** Filtering distributes over concatenation: survivors keep their
      relative order. */
  lemma {:induction false} RemoveIdAppend(a: seq<Json>, b: seq<Json>, id: Json)
    ensures RemoveId(a + b, id) == RemoveId(a, id) + RemoveId(b, id)
    decreases |a|
  {
    if a != [] {
      var ab := a + b;
      assert ab[0] == a[0] && ab[1..] == a[1..] + b;
      RemoveIdAppend(a[1..], b, id);
      var x, y := RemoveId(a[1..], id), RemoveId(b, id);
      if HasId(a[0], id) {
        assert RemoveId(ab, id) == x + y;
        assert RemoveId(a, id) == x;
      } else {
        assert RemoveId(ab, id) == [a[0]] + (x + y);
        assert RemoveId(a, id) == [a[0]] + x;
        assert [a[0]] + (x + y) == ([a[0]] + x) + y;
      }
    } else {
      assert a + b == b;
    }
  }

  /** Deleting an id no message carries leaves the list as it was. */
  lemma {:induction false} RemoveAbsent(list: seq<Json>, id: Json)
    requires forall k :: 0 <= k < |list| ==> !HasId(list[k], id)
    ensures RemoveId(list, id) == list
    decreases |list|
  {
    if list != [] {
      RemoveAbsent(list[1..], id);
      assert [list[0]] + list[1..] == list;
    }
  }

  /** After a delete no message carries the id, so deleting again changes nothing. */
  lemma RemoveIdempotent(list: seq<Json>, id: Json)
    ensures FirstMatch(RemoveId(list, id), id) == -1
    ensures RemoveId(RemoveId(list, id), id) == RemoveId(list, id)
  {
    var r := RemoveId(list, id);
    assert forall k :: 0 <= k < |r| ==> r[k] in r;
    RemoveAbsent(r, id);
  }

  // ---------------------------------------------------------------- pagination

  /** `parseInt(q) || default`: NaN and 0 give the default. */
  function ParamOr(q: Option<string>, default: int): (r: int)
    ensures ParseIntArg(q).None? ==> r == default
    ensures r != default ==> r != 0 && ParseIntArg(q) == Some(r)
    ensures ParseIntArg(q).Some? && ParseIntArg(q).value != 0 ==> r == ParseIntArg(q).value
  {
    var p := ParseIntArg(q);
    if p.None? || p.value == 0 then default else p.value
  }

  /** A missing or non-numeric parameter takes the default. */
  lemma ParamDefaults(default: int)
    ensures ParamOr(None, default) == default
    ensures ParamOr(Some("abc"), default) == default
  {
    ParseIntNaN();
  }

  /** A zero parameter takes the default too. */
  lemma ParamZero(default: int)
    ensures ParamOr(Some("0"), default) == default
  {
    ParseIntDecimal(0, []);
    assert DigitChar(0) == '0';
    assert Decimal(0) + [] == "0";
  }

  /** A positive numeral is taken as written. */
  lemma ParamNumeral(n: nat, default: int)
    requires n > 0
    ensures ParamOr(Some(Decimal(n)), default) == n
  {
    ParseIntDecimal(n, []);
    assert Decimal(n) + [] == Decimal(n);
  }

  /** A negative numeral is taken as written too: a negative page reaches
      the slice unchanged. */
  lemma ParamNegative(n: nat, default: int)
    requires n > 0
    ensures ParamOr(Some("-" + Decimal(n)), default) == -(n as int)
  {
    ParseIntNegative(n, []);
    assert "-" + Decimal(n) + [] == "-" + Decimal(n);
  }

  /** With a non-zero default the result is never 0. */
  lemma ParamNonZero(q: Option<string>, default: int)
    requires default != 0
    ensures ParamOr(q, default) != 0
  {
  }

  /** Where `Array.prototype.slice` puts a start or end index: negative
      values count back from the end, and both are clamped to the list. */
  function ClampIndex(k: int, len: nat): (r: nat)
    ensures r <= len
    ensures 0 <= k <= len ==> r == k
  {
    if k < 0 then (if len + k < 0 then 0 else len + k)
    else if k < len then k
    else len
  }

  /** `s.slice(start, end)`. */
  function Slice<T>(s: seq<T>, start: int, end: int): (r: seq<T>)
    ensures |r| <= |s|
    ensures 0 <= start <= end <= |s| ==> r == s[start..end]
    ensures forall x :: x in r ==> x in s
  {
    var from, to := ClampIndex(start, |s|), ClampIndex(end, |s|);
    if from < to then s[from..to] else []
  }

  /** The messages of one page: `list.slice((page-1)*limit, (page-1)*limit + limit)`. */
  function PageOf(list: seq<Json>, page: int, limit: int): (r: seq<Json>)
    ensures limit >= 0 ==> |r| <= limit
    ensures forall m :: m in r ==> m in list
  {
    var start := (page - 1) * limit;
    Slice(list, start, start + limit)
  }

  /** For a positive page and limit, the page is the contiguous run of at most
      `limit` stored messages starting at `(page-1)*limit`, in stored order. */
  lemma PageContents(list: seq<Json>, page: int, limit: int)
    requires page >= 1 && limit >= 1
    ensures var start := (page - 1) * limit;
      && start >= 0
      && |PageOf(list, page, limit)| == Max(0, Min(limit, |list| - start))
      && forall k :: 0 <= k < |PageOf(list, page, limit)| ==> PageOf(list, page, limit)[k] == list[start + k]
  {
    var start := (page - 1) * limit;
    MulNonNegative(page - 1, limit);
  }

  function Min(a: int, b: int): int {
    if a < b then a else b
  }

  function Max(a: int, b: int): int {
    if a < b then b else a
  }

  lemma MulNonNegative(a: nat, b: nat)
    ensures a * b >= 0
  {
  }

  /** Every stored message is on exactly the page its position says: message
      `i` is item `i % limit` of page `i / limit + 1`. */
  lemma PageCovers(list: seq<Json>, limit: int, i: int)
    requires limit >= 1 && 0 <= i < |list|
    ensures var page := i / limit + 1;
      i % limit < |PageOf(list, page, limit)| && PageOf(list, page, limit)[i % limit] == list[i]
  {
    var page := i / limit + 1;
    var start := (page - 1) * limit;
    assert start == (i / limit) * limit;
    assert start + i % limit == i;
    PageContents(list, page, limit);
  }

  // ---------------------------------------------------------------- send-message

  /** The record send-message stores: id from the clock, the three submitted
      fields, the ISO date, unread. */
  function NewRecord(now: int, name: Json, email: Json, message: Json, date: string): (r: Json)
    ensures HasId(r, Num(now)) && !IsRead(r) && Prop(r, "read") == Some(Bool(false))
    ensures Prop(r, "name") == Some(name) && Prop(r, "email") == Some(email)
    ensures Prop(r, "message") == Some(message) && Prop(r, "date") == Some(Str(date))
  {
    Obj(map["id" := Num(now), "name" := name, "email" := email, "message" := message,
            "date" := Str(date), "read" := Bool(false)])
  }
}
