/** listSections: one bulk query and a string-keyed map instead of a lookup per row. */
module SectionList {
  import opened Common
  import opened Sections

  datatype HistoryRow = HistoryRow(sectionId: string, version: nat, value: Json)

  /** A section row with its key, as findByApplicationId returns it. */
  datatype SectionRow = SectionRow(key: Key, section: Section)

  // ---------------------------------------------------------------- the string key

  function Digit(d: nat): char
    requires d < 10
  {
    '0' + d as char
  }

  /** How a template literal prints a version. */
  function Decimal(n: nat): string {
    if n < 10 then [Digit(n)] else Decimal(n / 10) + [Digit(n % 10)]
  }

  function HistoryKey(sectionId: string, version: nat): string {
    sectionId + ":" + Decimal(version)
  }

  lemma {:induction false} DecimalHasNoColon(n: nat)
    ensures |Decimal(n)| > 0 && forall k | 0 <= k < |Decimal(n)| :: Decimal(n)[k] != ':'
  {
    if n >= 10 { DecimalHasNoColon(n / 10); }
  }

  lemma {:induction false} DecimalInjective(m: nat, n: nat)
    requires Decimal(m) == Decimal(n)
    ensures m == n
  {
    DecimalHasNoColon(m / 10);
    DecimalHasNoColon(n / 10);
    var s := Decimal(m);
    assert m < 10 <==> |s| == 1;
    assert n < 10 <==> |s| == 1;
    if m >= 10 {
      assert s[..|s| - 1] == Decimal(m / 10) && s[..|s| - 1] == Decimal(n / 10);
      DecimalInjective(m / 10, n / 10);
      assert Digit(m % 10) == Digit(n % 10);
    }
  }

  /** The last colon separates, whatever the ids contain. */
  lemma HistoryKeyInjective(a: string, v: nat, b: string, w: nat)
    requires HistoryKey(a, v) == HistoryKey(b, w)
    ensures a == b && v == w
  {
    var s := HistoryKey(a, v);
    DecimalHasNoColon(v);
    DecimalHasNoColon(w);
    assert s[|a|] == ':' && s[|b|] == ':';
    assert forall k | |a| < k < |s| :: s[k] == Decimal(v)[k - |a| - 1];
    assert forall k | |b| < k < |s| :: s[k] == Decimal(w)[k - |b| - 1];
    assert a == s[..|a|] && b == s[..|b|];
    assert Decimal(v) == s[|a| + 1..] && Decimal(w) == s[|b| + 1..];
    DecimalInjective(v, w);
  }

  // ---------------------------------------------------------------- the list

  function ActivePairs(rows: seq<SectionRow>): set<(string, nat)> {
    set r | r in rows && r.section.active.Some? :: (r.section.id, r.section.active.value)
  }

  /** What findHistoryEntriesBulk may return: the matching rows, in any order. */
  ghost predicate IsBulkResult(history: map<(string, nat), Json>, pairs: set<(string, nat)>, entries: seq<HistoryRow>) {
    forall e :: e in entries <==>
      (e.sectionId, e.version) in pairs && (e.sectionId, e.version) in history
      && history[(e.sectionId, e.version)] == e.value
  }

  /** new Map(entries.map(...)): a later entry replaces an earlier one of the same key. */
  function HistoryMap(entries: seq<HistoryRow>): map<string, Json> {
    if entries == [] then map[]
    else
      var last := entries[|entries| - 1];
      HistoryMap(entries[..|entries| - 1])[HistoryKey(last.sectionId, last.version) := last.value]
  }

  function LookUp(m: map<string, Json>, row: Section): Option<Json> {
    if row.active.None? then None
    else
      var key := HistoryKey(row.id, row.active.value);
      if key in m then Some(m[key]) else None
  }

  /** The mapping over all rows; the first unsupported key fails the whole request. */
  function ListSections(rows: seq<SectionRow>, m: map<string, Json>): Result<seq<SectionDto>> {
    if rows == [] then Ok([])
    else
      match MapSection(rows[0].key, rows[0].section, LookUp(m, rows[0].section))
      case Err(e) => Err(e)
      case Ok(dto) =>
        match ListSections(rows[1..], m)
        case Err(e) => Err(e)
        case Ok(rest) => Ok([dto] + rest)
  }

  lemma {:induction false} HistoryMapExact(entries: seq<HistoryRow>, history: map<(string, nat), Json>)
    requires forall e | e in entries ::
               (e.sectionId, e.version) in history && history[(e.sectionId, e.version)] == e.value
    ensures forall id, v :: HistoryKey(id, v) in HistoryMap(entries) <==>
              exists e :: e in entries && e.sectionId == id && e.version == v
    ensures forall e | e in entries ::
              HistoryKey(e.sectionId, e.version) in HistoryMap(entries)
              && HistoryMap(entries)[HistoryKey(e.sectionId, e.version)] == e.value
  {
    if entries != [] {
      var n := |entries| - 1;
      var last := entries[n];
      assert entries == entries[..n] + [last];
      HistoryMapExact(entries[..n], history);
      forall id, v | HistoryKey(id, v) == HistoryKey(last.sectionId, last.version)
        ensures id == last.sectionId && v == last.version
      {
        HistoryKeyInjective(id, v, last.sectionId, last.version);
      }
      assert forall e | e in entries[..n] && e.sectionId == last.sectionId && e.version == last.version ::
          e.value == last.value;
    }
  }

  /** The bulk lookup of one row agrees with its own query. */
  lemma LookUpAgrees(rows: seq<SectionRow>, row: SectionRow, history: map<(string, nat), Json>,
                     entries: seq<HistoryRow>)
    requires row in rows && IsBulkResult(history, ActivePairs(rows), entries)
    ensures MapSection(row.key, row.section, LookUp(HistoryMap(entries), row.section))
         == ToSectionDto(history, row.key, row.section)
  {
    HistoryMapExact(entries, history);
    var s := row.section;
    if s.active.Some? {
      var pair := (s.id, s.active.value);
      assert pair in ActivePairs(rows);
      if pair in history {
        var e := HistoryRow(s.id, s.active.value, history[pair]);
        assert e in entries;
      }
    }
  }

  lemma {:induction false} ListAgreesOn(rows: seq<SectionRow>, part: seq<SectionRow>,
                                        history: map<(string, nat), Json>, entries: seq<HistoryRow>)
    requires IsBulkResult(history, ActivePairs(rows), entries) && forall r | r in part :: r in rows
    ensures var list := ListSections(part, HistoryMap(entries));
            && (list.Ok? <==> forall r | r in part :: ToSectionDto(history, r.key, r.section).Ok?)
            && (list.Ok? ==> |list.value| == |part| && forall i | 0 <= i < |part| ::
                  ToSectionDto(history, part[i].key, part[i].section) == Ok(list.value[i]))
  {
    if part != [] {
      assert part[0] in rows;
      LookUpAgrees(rows, part[0], history, entries);
      assert forall r :: r in part <==> r == part[0] || r in part[1..] by {
        assert part == [part[0]] + part[1..];
      }
      ListAgreesOn(rows, part[1..], history, entries);
    }
  }

  /** For any list of sections and any order of the bulk result: row by row what toSectionDto returns. */
  lemma ListSectionsAgreesWithRowLookup(rows: seq<SectionRow>, history: map<(string, nat), Json>,
                                        entries: seq<HistoryRow>)
    requires IsBulkResult(history, ActivePairs(rows), entries)
    ensures var list := ListSections(rows, HistoryMap(entries));
            && (list.Ok? <==> forall r | r in rows :: ToSectionDto(history, r.key, r.section).Ok?)
            && (list.Ok? ==> |list.value| == |rows| && forall i | 0 <= i < |rows| ::
                  ToSectionDto(history, rows[i].key, rows[i].section) == Ok(list.value[i]))
  {
    ListAgreesOn(rows, rows, history, entries);
  }
}
