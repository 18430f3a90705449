/** The client's month data as the calendar and the dashboard read it: the
    two maps rebuilt from the service's rows, the counts on the dashboard,
    the tags a day carries, and the command typed after clicking a day. */
module Adherence {
  import opened Wrappers
  import opened Text
  import opened JsValue
  import opened Dates

  /** `m[k]` on a plain object: undefined for a missing key. */
  function Lookup(m: map<string, Json>, k: string): Json {
    if k in m then m[k] else Undefined
  }

  // ---------------------------------------------------------------------
  // Filing rows into a map (the loaders' forEach bodies).

  /** The map obtained by filing the rows, in order, into an empty object:
      a row whose key is None is skipped, and a row with a key overwrites
      whatever an earlier row filed under it. */
  function FileRows(rows: seq<Json>, key: Json -> Option<string>, value: Json -> Json): map<string, Json>
  {
    if rows == [] then map[]
    else
      var m := FileRows(rows[..|rows| - 1], key, value);
      var row := rows[|rows| - 1];
      match key(row)
      case None => m
      case Some(k) => m[k := value(row)]
  }

  /** The keys of the map are exactly the keys of the rows. */
  lemma {:induction false} FileRowsKeys(rows: seq<Json>, key: Json -> Option<string>, value: Json -> Json, k: string)
    ensures k in FileRows(rows, key, value) <==> exists i :: 0 <= i < |rows| && key(rows[i]) == Some(k)
    decreases |rows|
  {
    if rows != [] {
      var init := rows[..|rows| - 1];
      FileRowsKeys(init, key, value, k);
      if exists i :: 0 <= i < |init| && key(init[i]) == Some(k) {
        var i :| 0 <= i < |init| && key(init[i]) == Some(k);
        assert rows[i] == init[i];
      }
      if exists i :: 0 <= i < |rows| && key(rows[i]) == Some(k) {
        var i :| 0 <= i < |rows| && key(rows[i]) == Some(k);
        if i < |init| {
          assert init[i] == rows[i];
        }
      }
    }
  }

  /** A key holds the value of the last row filed under it. */
  lemma {:induction false} FileRowsLastWins(rows: seq<Json>, key: Json -> Option<string>, value: Json -> Json, i: int, k: string)
    requires 0 <= i < |rows| && key(rows[i]) == Some(k)
    requires forall j :: i < j < |rows| ==> key(rows[j]) != Some(k)
    ensures k in FileRows(rows, key, value) && FileRows(rows, key, value)[k] == value(rows[i])
    decreases |rows|
  {
    if i < |rows| - 1 {
      var init := rows[..|rows| - 1];
      assert init[i] == rows[i];
      forall j | i < j < |init| ensures key(init[j]) != Some(k) {
        assert init[j] == rows[j];
      }
      FileRowsLastWins(init, key, value, i, k);
    }
  }

  /** loadMonthCheckins files a row under `row.date` when `row?.date` is
      truthy; a property key is the string form of the value. */
  function CheckinKey(row: Json): Option<string> {
    var d := Prop(row, "date");
    if Truthy(d) then Some(ToStr(d)) else None
  }

  function DidTrain(row: Json): Json {
    Prop(row, "did_train")
  }

  /** CHECKINS_MAP after a successful load of these rows. */
  function CheckinRows(rows: seq<Json>): map<string, Json> {
    FileRows(rows, CheckinKey, DidTrain)
  }

  /** `${date}::${supplementId}`, the key of SUPP_MAP. */
  function SuppKey(date: Json, supplementId: Json): string {
    ToStr(date) + "::" + ToStr(supplementId)
  }

  function SuppRowKey(row: Json): Option<string> {
    Some(SuppKey(Prop(row, "date"), Prop(row, "supplement_id")))
  }

  function Took(row: Json): Json {
    Prop(row, "took")
  }

  /** SUPP_MAP after loadMonthSuppCheckins has filed these rows. */
  function SuppRows(rows: seq<Json>): map<string, Json> {
    FileRows(rows, SuppRowKey, Took)
  }

  /** Filing one more row stores its `took` under its key. */
  lemma SuppRowsStep(rows: seq<Json>, i: int)
    requires 0 <= i < |rows|
    ensures SuppRows(rows[..i + 1])
            == SuppRows(rows[..i])[SuppKey(Prop(rows[i], "date"), Prop(rows[i], "supplement_id")) := Took(rows[i])]
  {
    assert rows[..i + 1][..i] == rows[..i];
  }

  predicate IsColon(c: char) {
    c == ':'
  }

  /** Keys of SUPP_MAP never collide when the dates hold no colon: the key
      determines both the date and the supplement id. */
  lemma SuppKeyInjective(d1: string, id1: string, d2: string, id2: string)
    requires HasNo(d1, IsColon) && HasNo(d2, IsColon)
    requires d1 + "::" + id1 == d2 + "::" + id2
    ensures d1 == d2 && id1 == id2
  {
    var k1 := d1 + "::" + id1;
    assert k1 == d1 + (":" + (":" + id1));
    FirstWhereAfter(d1, ":" + (":" + id1), IsColon);
    assert d2 + "::" + id2 == d2 + (":" + (":" + id2));
    FirstWhereAfter(d2, ":" + (":" + id2), IsColon);
    assert |d1| == |d2|;
    assert d1 == k1[..|d1|];
    assert d2 == k1[..|d2|];
    assert id1 == k1[|d1| + 2..];
  }

  // ---------------------------------------------------------------------
  // Dashboard.

  /** The keys holding the value 1. */
  function Ones(m: map<string, Json>): (s: set<string>)
    ensures forall k :: k in s <==> k in m && m[k] == Num(1)
  {
    set k | k in m && m[k] == Num(1)
  }

  /** `Object.values(m).filter(v => v === 1).length`. */
  function CountOnes(m: map<string, Json>): (n: nat)
    ensures n <= |m|
  {
    var ones := Ones(m);
    assert ones <= m.Keys;
    SubsetCard(ones, m.Keys);
    |ones|
  }

  lemma {:induction false} SubsetCard(a: set<string>, b: set<string>)
    requires a <= b
    ensures |a| <= |b|
    decreases |b|
  {
    if b != {} {
      var x :| x in b;
      SubsetCard(a - {x}, b - {x});
    }
  }

  /** Storing v under k moves the count by what the old value and the new
      one contribute: only the value 1 is ever counted. */
  lemma CountOnesStore(m: map<string, Json>, k: string, v: Json)
    ensures CountOnes(m[k := v]) ==
              CountOnes(m) - (if k in m && m[k] == Num(1) then 1 else 0) + (if v == Num(1) then 1 else 0)
  {
    var before, after := Ones(m), Ones(m[k := v]);
    var others := before - {k};
    forall j ensures j in after - {k} <==> j in others {
      if j != k {
        assert j in m[k := v] <==> j in m;
      }
    }
    assert after - {k} == others;
    SizeWith(after, others, k);
    SizeWith(before, others, k);
  }

  /** A set differs from its part without k by k or by nothing. */
  lemma SizeWith(s: set<string>, rest: set<string>, k: string)
    requires rest == s - {k}
    ensures |s| == |rest| + (if k in s then 1 else 0)
  {
    if k in s {
      assert s == rest + {k};
    } else {
      assert s == rest;
    }
  }

  /** The figures of renderDashboard. PHOTOS is always an array here, so
      the `Array.isArray` test always passes. */
  datatype Kpis = Kpis(trained: nat, suppTaken: nat, photos: nat)

  function Dashboard(checkins: map<string, Json>, supp: map<string, Json>, photos: seq<Json>): (r: Kpis)
    ensures r.trained == |set k | k in checkins && checkins[k] == Num(1)|
    ensures r.suppTaken == |set k | k in supp && supp[k] == Num(1)|
    ensures r.trained <= |checkins| && r.suppTaken <= |supp|
    ensures r.photos == |photos|
  {
    Kpis(CountOnes(checkins), CountOnes(supp), |photos|)
  }

  // ---------------------------------------------------------------------
  // Calendar.

  /** The two tags a stored value can earn. */
  datatype Mark = Done | Missed

  /** `v === 1` earns ✅, `v === 0` earns ❌, anything else (an absent key
      included) earns nothing. */
  function MarkOf(v: Json): (r: Option<Mark>)
    ensures r == Some(Done) <==> v == Num(1)
    ensures r == Some(Missed) <==> v == Num(0)
    ensures r == None <==> v != Num(1) && v != Num(0)
  {
    if v == Num(1) then Some(Done) else if v == Num(0) then Some(Missed) else None
  }

  /** The dashboard's count is the number of keys the calendar marks ✅. */
  lemma CountOnesIsDone(m: map<string, Json>)
    ensures CountOnes(m) == |set k | k in m && MarkOf(m[k]) == Some(Done)|
  {
    assert (set k | k in m && MarkOf(m[k]) == Some(Done)) == (set k | k in m && m[k] == Num(1));
  }

  datatype Tag = Trained(mark: Mark) | TookSupp(name: string, mark: Mark)

  datatype Cell = Pad | Day(day: int, key: string, tags: seq<Tag>)

  /** The tag of one supplement on the day `key`, its name with ✅ or ❌,
      as a list of at most one tag. */
  function SuppTag(s: Json, supp: map<string, Json>, key: string): seq<Tag> {
    match MarkOf(Lookup(supp, SuppKey(Str(key), Prop(s, "id"))))
    case None => []
    case Some(mk) => [TookSupp(ToStr(Prop(s, "name")), mk)]
  }

  /** The supplement tags of the day `key`, in list order. */
  function SuppTags(supps: seq<Json>, supp: map<string, Json>, key: string): seq<Tag> {
    if supps == [] then []
    else SuppTags(supps[..|supps| - 1], supp, key) + SuppTag(supps[|supps| - 1], supp, key)
  }

  /** Listing one more supplement adds its tag, if it has one. */
  lemma SuppTagsStep(supps: seq<Json>, j: int, supp: map<string, Json>, key: string)
    requires 0 <= j < |supps|
    ensures SuppTags(supps[..j + 1], supp, key) == SuppTags(supps[..j], supp, key) + SuppTag(supps[j], supp, key)
  {
    assert supps[..j + 1][..j] == supps[..j];
  }

  /** The training tag of the day `key`. */
  function TrainTags(checkins: map<string, Json>, key: string): seq<Tag> {
    match MarkOf(Lookup(checkins, key))
    case None => []
    case Some(mk) => [Trained(mk)]
  }

  /** The cell of day d of the month. */
  function DayCell(y: int, m: int, d: int, checkins: map<string, Json>, supps: seq<Json>, supp: map<string, Json>): Cell
    requires 0 <= m < 12 && 1 <= d <= 31
  {
    var key := IsoDate(y, m, d);
    Day(d, key, TrainTags(checkins, key) + SuppTags(supps, supp, key))
  }

  /** `[f(1), f(2), …, f(n)]`: what a loop over `day = 1 … n` appends. */
  function Upto<T>(n: nat, f: nat --> T): (r: seq<T>)
    requires forall d :: 1 <= d <= n ==> f.requires(d)
    ensures |r| == n
  {
    if n == 0 then [] else Upto(n - 1, f) + [f(n)]
  }

  lemma {:induction false} UptoAt<T>(n: nat, f: nat --> T, d: nat)
    requires forall d :: 1 <= d <= n ==> f.requires(d)
    requires 1 <= d <= n
    ensures Upto(n, f)[d - 1] == f(d)
    decreases n
  {
    if d < n {
      UptoAt(n - 1, f, d);
    }
  }

  /** The day cells for days 1..n, in order. */
  function DayCells(y: int, m: int, n: nat, checkins: map<string, Json>, supps: seq<Json>, supp: map<string, Json>): (cells: seq<Cell>)
    requires 0 <= m < 12 && n <= 31
    ensures |cells| == n
  {
    Upto(n, day requires 1 <= day <= 31 => DayCell(y, m, day, checkins, supps, supp))
  }

  function Pads(n: nat): seq<Cell> {
    seq(n, i => Pad)
  }

  /** The year the grid shows for the cursor's year: `new Date(year, …)`
      reads years 0..99 as 1900..1999. */
  function GridYear(year: int): int {
    DateCtorYear(year)
  }

  /** The grid renderCalendar draws for the month (year, m): one blank
      cell per weekday before the 1st, then one cell per day. */
  function CalendarCells(year: int, m: int, checkins: map<string, Json>, supps: seq<Json>, supp: map<string, Json>): seq<Cell>
    requires 0 <= m < 12
  {
    var y := GridYear(year);
    Pads(Weekday(y, m, 1)) + DayCells(y, m, DaysInMonth(y, m), checkins, supps, supp)
  }

  /** The grid has one padding cell per weekday before the 1st, then one
      cell per day of the month, in order: `start` padding cells followed
      by the cells of days 1..n put the cell of day d at start + d - 1. */
  lemma CalendarShape(y: int, m: int, start: nat, n: int, checkins: map<string, Json>, supps: seq<Json>, supp: map<string, Json>)
    requires 0 <= m < 12 && 0 <= n <= 31
    ensures var cells := Pads(start) + DayCells(y, m, n, checkins, supps, supp);
            && |cells| == start + n
            && (forall i :: 0 <= i < start ==> cells[i] == Pad)
            && (forall d :: 1 <= d <= n ==> cells[start + d - 1] == DayCell(y, m, d, checkins, supps, supp))
  {
    var days := DayCells(y, m, n, checkins, supps, supp);
    forall d | 1 <= d <= n
      ensures (Pads(start) + days)[start + d - 1] == DayCell(y, m, d, checkins, supps, supp)
    {
      assert (Pads(start) + days)[start + d - 1] == days[d - 1];
      UptoAt(n, day requires 1 <= day <= 31 => DayCell(y, m, day, checkins, supps, supp), d);
    }
  }

  /** Day d is keyed by its ISO date and carries a leading training tag, ✅
      exactly when the value stored for that date is 1 and ❌ exactly when
      it is 0. */
  lemma DayCellTags(y: int, m: int, d: int, checkins: map<string, Json>, supps: seq<Json>, supp: map<string, Json>)
    requires 0 <= m < 12 && 1 <= d <= 31
    ensures var c := DayCell(y, m, d, checkins, supps, supp);
            var key := IsoDate(y, m, d);
            && c.day == d && c.key == key
            && (|c.tags| > 0 && c.tags[0] == Trained(Done) <==> Lookup(checkins, key) == Num(1))
            && (|c.tags| > 0 && c.tags[0] == Trained(Missed) <==> Lookup(checkins, key) == Num(0))
  {
    var key := IsoDate(y, m, d);
    SuppTagsNotTrained(supps, supp, key);
  }

  /** Supplement tags are never training tags. */
  lemma {:induction false} SuppTagsNotTrained(supps: seq<Json>, supp: map<string, Json>, key: string)
    ensures forall i :: 0 <= i < |SuppTags(supps, supp, key)| ==> SuppTags(supps, supp, key)[i].TookSupp?
    decreases |supps|
  {
    if supps != [] {
      SuppTagsNotTrained(supps[..|supps| - 1], supp, key);
    }
  }

  // ---------------------------------------------------------------------
  // The command typed after clicking a day.

  datatype Command = Cancel | Train(didTrain: int) | TakeSupp(name: string, took: int) | Invalid

  /** What the day-click handler makes of the prompt's answer (None when
      the prompt was dismissed): nothing for an empty answer, else the
      reading of the trimmed answer. */
  function ParseClick(input: Option<string>): (r: Command)
    ensures r == Cancel <==> input == None || input == Some("")
    ensures r.Train? ==> input.Some? && (r.didTrain == 1 <==> JsTrim(input.value) == "1")
                         && (r.didTrain == 0 <==> JsTrim(input.value) == "0")
    ensures input.Some? && input.value != "" && (JsTrim(input.value) == "1" || JsTrim(input.value) == "0") ==> r.Train?
    ensures r.TakeSupp? ==> IsLowerCase(r.name) && (r.took == 0 || r.took == 1)
  {
    if input == None || input.value == "" then Cancel
    else ParseTrimmed(JsTrim(input.value))
  }

  /** "1" and "0" are training check-ins; anything else is read as a
      supplement command. */
  function ParseTrimmed(t: string): (r: Command)
    ensures r != Cancel
    ensures r.Train? <==> t == "1" || t == "0"
    ensures r.Train? ==> (r.didTrain == 1 <==> t == "1") && (r.didTrain == 0 <==> t == "0")
    ensures r.TakeSupp? ==> IsLowerCase(r.name) && (r.took == 0 || r.took == 1)
  {
    if t == "1" || t == "0" then Train(if t == "1" then 1 else 0)
    else SuppCommand(SplitWs(t))
  }

  /** `"<name> <value>"` split into tokens: every token but the last,
      joined by one space and lower-cased, names the supplement; the last
      token "1" means taken and any other token not taken. Fewer than two
      tokens is an invalid format. */
  function SuppCommand(parts: seq<string>): (r: Command)
    ensures r.TakeSupp? || r == Invalid
    ensures r.TakeSupp? <==> |parts| >= 2
    ensures r.TakeSupp? ==> IsLowerCase(r.name) && (r.took == 1 <==> parts[|parts| - 1] == "1") && (r.took == 0 || r.took == 1)
  {
    if |parts| >= 2 then
      LowerIsLowerCase(Join(parts[..|parts| - 1], " "));
      TakeSupp(Lower(Join(parts[..|parts| - 1], " ")), if parts[|parts| - 1] == "1" then 1 else 0)
    else Invalid
  }

  /** Two or more words joined by one space: the text is already trimmed,
      longer than one character, and splits back into the words, so it
      reads as the supplement command of those words. */
  lemma ClickOfJoinedWords(all: seq<string>)
    requires |all| >= 2 && forall k :: 0 <= k < |all| ==> IsWord(all[k])
    ensures ParseClick(Some(Join(all, " "))) == SuppCommand(all)
  {
    var s := Join(all, " ");
    JoinWordsTrimmed(all);
    TrimOfTrimmed(s, IsJsSpace);
    SplitJoin(all);
    var tail := all[1..];
    assert forall k :: 0 <= k < |tail| ==> IsWord(tail[k]) by {
      forall k | 0 <= k < |tail| ensures IsWord(tail[k]) {
        assert tail[k] == all[k + 1];
      }
    }
    JoinWordsTrimmed(tail);
    assert s == all[0] + " " + Join(tail, " ");
    ParseClickOfTokens(s, all);
  }

  /** Two or more words joined by one space read as a supplement command:
      the name is all words but the last, joined by one space and
      lower-cased, and the value is 1 only when the last word is "1". */
  lemma ClickSuppRoundTrip(words: seq<string>)
    requires |words| >= 2 && forall k :: 0 <= k < |words| ==> IsWord(words[k])
    ensures ParseClick(Some(Join(words, " "))) ==
              TakeSupp(Lower(Join(words[..|words| - 1], " ")), if words[|words| - 1] == "1" then 1 else 0)
  {
    ClickOfJoinedWords(words);
  }

  /** A trimmed answer other than "1" and "0" is read through its tokens. */
  lemma ParseClickOfTokens(s: string, tokens: seq<string>)
    requires s != "" && JsTrim(s) == s && s != "1" && s != "0" && SplitWs(s) == tokens
    ensures ParseClick(Some(s)) == SuppCommand(tokens)
  {
  }

  /** A single word other than 1 or 0 is rejected. */
  lemma ClickSingleWordInvalid(w: string)
    requires IsWord(w) && w != "1" && w != "0"
    ensures ParseClick(Some(w)) == Invalid
  {
    assert Join([w], " ") == w;
    JoinWordsTrimmed([w]);
    TrimOfTrimmed(w, IsJsSpace);
    SplitJoin([w]);
  }

  /** How `SUPPLEMENTS.find` ended: the index of the match, no match, or a
      TypeError at the index of a nullish entry reached before any match. */
  datatype Search = Found(index: nat) | NotFound | Threw(index: nat)

  /** `String(s.name || "").toLowerCase()`, the name a supplement is
      matched by. */
  function SuppMatchName(s: Json): string {
    Lower(ToStr(Or(Prop(s, "name"), Str(""))))
  }

  /** `SUPPLEMENTS.find(s => String(s.name || "").toLowerCase() === name)`:
      the scan stops at the first match or at the first nullish entry. */
  function FindSupplement(supps: seq<Json>, name: string): (r: Search)
    ensures !r.NotFound? ==> r.index < |supps|
    ensures !r.NotFound? ==> forall j :: 0 <= j < r.index ==> !IsNullish(supps[j]) && SuppMatchName(supps[j]) != name
    ensures r.Found? ==> !IsNullish(supps[r.index]) && SuppMatchName(supps[r.index]) == name
    ensures r.Threw? ==> IsNullish(supps[r.index])
    ensures r.NotFound? <==> forall j :: 0 <= j < |supps| ==> !IsNullish(supps[j]) && SuppMatchName(supps[j]) != name
    decreases |supps|
  {
    if supps == [] then NotFound
    else if IsNullish(supps[0]) then Threw(0)
    else if SuppMatchName(supps[0]) == name then Found(0)
    else
      var r := FindSupplement(supps[1..], name);
      assert forall j :: 1 <= j < |supps| ==> supps[j] == supps[1..][j - 1];
      match r
      case Found(i) => Found(i + 1)
      case NotFound => NotFound
      case Threw(i) => Threw(i + 1)
  }

  /** What a click on the day `key` asks of the service. */
  datatype ClickEffect =
    | NoEffect
    | PostCheckin(date: string, didTrain: int)
    | PostSuppCheckin(date: string, supplementId: Json, took: int)
    | AlertNotFound
    | AlertInvalid
    | ClickThrew

  /** Both posts carry the clicked day as their date; the answer decides
      which request is made, and a supplement command posts exactly when
      the name is found before any nullish entry. */
  function ClickEffectOf(input: Option<string>, key: string, supps: seq<Json>): (e: ClickEffect)
    ensures e == NoEffect <==> ParseClick(input).Cancel?
    ensures e == AlertInvalid <==> ParseClick(input).Invalid?
    ensures e.PostCheckin? <==> ParseClick(input).Train?
    ensures e.PostCheckin? ==> e.date == key && e.didTrain == ParseClick(input).didTrain
    ensures e.PostSuppCheckin? <==>
              ParseClick(input).TakeSupp? && FindSupplement(supps, ParseClick(input).name).Found?
    ensures e.PostSuppCheckin? ==>
              && e.date == key
              && e.supplementId == Prop(supps[FindSupplement(supps, ParseClick(input).name).index], "id")
              && e.took == ParseClick(input).took
    ensures e == AlertNotFound <==> ParseClick(input).TakeSupp? && FindSupplement(supps, ParseClick(input).name).NotFound?
    ensures e == ClickThrew <==> ParseClick(input).TakeSupp? && FindSupplement(supps, ParseClick(input).name).Threw?
  {
    match ParseClick(input)
    case Cancel => NoEffect
    case Invalid => AlertInvalid
    case Train(t) => PostCheckin(key, t)
    case TakeSupp(name, took) =>
      match FindSupplement(supps, name)
      case Found(i) => PostSuppCheckin(key, Prop(supps[i], "id"), took)
      case NotFound => AlertNotFound
      case Threw(_) => ClickThrew
  }
}
