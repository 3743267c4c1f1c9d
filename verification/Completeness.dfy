/** Which required documents an application has: the string-keyed lookup and what it decides. */
module Completeness {
  import opened Common
  import opened Documents

  function TypeName(t: DocumentType): string {
    match t
    case ExecutiveSummary => "EXECUTIVE_SUMMARY"
    case TechnicalArchitecture => "TECHNICAL_ARCHITECTURE"
    case Roadmap => "ROADMAP"
    case Budget => "BUDGET"
    case RiskAnalysis => "RISK_ANALYSIS"
    case MonetizationModel => "MONETIZATION_MODEL"
    case CV => "CV"
    case MotivationLetter => "MOTIVATION_LETTER"
    case SolutionProposal => "SOLUTION_PROPOSAL"
    case Other => "OTHER"
  }

  function ScopeName(s: Scope): string {
    match s
    case ApplicationScope => "APPLICATION"
    case TeamMemberScope => "TEAM_MEMBER"
  }

  function MemberText(member: Option<UserId>): string {
    if member.Some? then member.value else "application"
  }

  /** buildDocumentSlotKey. */
  function SlotKey(slot: Slot): string {
    TypeName(slot.docType) + ":" + ScopeName(slot.scope) + ":" + MemberText(slot.member)
  }

  // ---------------------------------------------------------------- the key

  lemma SplitAtColon(a: string, b: string, x: string, y: string)
    requires ':' !in a && ':' !in x && a + ":" + b == x + ":" + y
    ensures a == x && b == y
  {
    var s := a + ":" + b;
    assert s[|a|] == ':' && s[|x|] == ':';
    assert forall k | 0 <= k < |a| :: s[k] == a[k] && a[k] in a;
    assert forall k | 0 <= k < |x| :: s[k] == x[k] && x[k] in x;
    assert a == s[..|a|] && x == s[..|x|];
    assert b == s[|a| + 1..] && y == s[|x| + 1..];
  }

  lemma SplitAtColons(a: string, b: string, c: string, x: string, y: string, z: string)
    requires ':' !in a && ':' !in b && ':' !in x && ':' !in y
    ensures a + ":" + b + ":" + c == x + ":" + y + ":" + z <==> a == x && b == y && c == z
  {
    if a + ":" + b + ":" + c == x + ":" + y + ":" + z {
      assert a + ":" + b + ":" + c == a + ":" + (b + ":" + c);
      assert x + ":" + y + ":" + z == x + ":" + (y + ":" + z);
      SplitAtColon(a, b + ":" + c, x, y + ":" + z);
      SplitAtColon(b, c, y, z);
    }
  }

  /** Enough of each name to tell the ten apart. */
  function Shape(t: DocumentType): (nat, char) {
    match t
    case ExecutiveSummary => (17, 'E')
    case TechnicalArchitecture => (22, 'T')
    case Roadmap => (7, 'R')
    case Budget => (6, 'B')
    case RiskAnalysis => (13, 'R')
    case MonetizationModel => (18, 'M')
    case CV => (2, 'C')
    case MotivationLetter => (17, 'M')
    case SolutionProposal => (17, 'S')
    case Other => (5, 'O')
  }

  lemma NameHasShape(t: DocumentType)
    ensures |TypeName(t)| == Shape(t).0 && TypeName(t)[0] == Shape(t).1 && ':' !in TypeName(t)
  {}

  lemma TypeNamesDiffer(t: DocumentType, u: DocumentType)
    ensures TypeName(t) == TypeName(u) <==> t == u
  {
    NameHasShape(t);
    NameHasShape(u);
    assert Shape(t) == Shape(u) ==> t == u;
  }

  lemma ScopeNamesDiffer(s: Scope, u: Scope)
    ensures ScopeName(s) == ScopeName(u) <==> s == u
    ensures ':' !in ScopeName(s)
  {
    assert ScopeName(s)[0] != ScopeName(u)[0] || s == u;
  }

  /** Exactly when two slots share a key: only an absent member and one called "application" can clash. */
  lemma SlotKeyCollision(a: Slot, b: Slot)
    ensures SlotKey(a) == SlotKey(b)
       <==> a.docType == b.docType && a.scope == b.scope && MemberText(a.member) == MemberText(b.member)
  {
    NameHasShape(a.docType);
    NameHasShape(b.docType);
    TypeNamesDiffer(a.docType, b.docType);
    ScopeNamesDiffer(a.scope, b.scope);
    ScopeNamesDiffer(b.scope, a.scope);
    SplitAtColons(TypeName(a.docType), ScopeName(a.scope), MemberText(a.member),
                  TypeName(b.docType), ScopeName(b.scope), MemberText(b.member));
  }

  /** On the slots the service can produce, the key is injective, whatever the user ids are. */
  lemma SlotKeyInjective(a: Slot, b: Slot)
    requires Producible(a) && Producible(b) && SlotKey(a) == SlotKey(b)
    ensures a == b
  {
    SlotKeyCollision(a, b);
  }

  // ---------------------------------------------------------------- completeness

  /** For a document type the call requires: the member's CV slots, or the one application slot. */
  function SlotsFor(t: DocumentType, members: seq<UserId>): seq<Slot> {
    if t == CV then seq(|members|, i requires 0 <= i < |members| => Slot(CV, TeamMemberScope, Some(members[i])))
    else [Slot(t, ApplicationScope, None)]
  }

  function RequiredSlots(required: seq<DocumentType>, members: seq<UserId>): seq<Slot> {
    if required == [] then []
    else RequiredSlots(required[..|required| - 1], members) + SlotsFor(required[|required| - 1], members)
  }

  method BuildRequiredDocumentSlots(required: seq<DocumentType>, members: seq<UserId>) returns (slots: seq<Slot>)
    ensures slots == RequiredSlots(required, members)
    ensures forall s :: s in slots <==>
              Producible(s) && s.docType in required && (s.docType == CV ==> s.member.value in members)
  {
    slots := [];
    for i := 0 to |required|
      invariant slots == RequiredSlots(required[..i], members)
    {
      assert required[..i + 1][..i] == required[..i];
      if required[i] == CV {
        var before := slots;
        for j := 0 to |members|
          invariant slots == before + SlotsFor(CV, members)[..j]
        {
          slots := slots + [Slot(CV, TeamMemberScope, Some(members[j]))];
        }
        assert SlotsFor(CV, members)[..|members|] == SlotsFor(CV, members);
      } else {
        slots := slots + [Slot(required[i], ApplicationScope, None)];
      }
    }
    assert required[..|required|] == required;
    RequiredSlotsExact(required, members);
  }

  lemma {:induction false} RequiredSlotsExact(required: seq<DocumentType>, members: seq<UserId>)
    ensures forall s :: s in RequiredSlots(required, members) <==>
              Producible(s) && s.docType in required && (s.docType == CV ==> s.member.value in members)
  {
    if required != [] {
      var n := |required| - 1;
      var t := required[n];
      RequiredSlotsExact(required[..n], members);
      assert required == required[..n] + [t];
      forall s ensures s in SlotsFor(t, members) <==>
          Producible(s) && s.docType == t && (s.docType == CV ==> s.member.value in members)
      {
        if t == CV && Producible(s) && s.docType == t && s.member.value in members {
          var j :| 0 <= j < |members| && members[j] == s.member.value;
          assert SlotsFor(t, members)[j] == s;
        }
      }
    }
  }

  lemma {:induction false} RequiredSlotsGrow(required: seq<DocumentType>, members: seq<UserId>, n: nat)
    requires n <= |required|
    ensures RequiredSlots(required[..n], members) <= RequiredSlots(required, members)
  {
    if n < |required| {
      var m := |required| - 1;
      RequiredSlotsGrow(required[..m], members, n);
      assert required[..m][..n] == required[..n];
    } else {
      assert required[..n] == required;
    }
  }

  /** They stand in the order of the types, once each, and a CV's in the order of the members. */
  lemma RequiredSlotsInOrder(required: seq<DocumentType>, members: seq<UserId>, n: nat)
    requires n < |required|
    ensures RequiredSlots([], members) == []
    ensures var slots, start := RequiredSlots(required, members), |RequiredSlots(required[..n], members)|;
            var next := |RequiredSlots(required[..n + 1], members)|;
            && start <= next <= |slots|
            && if required[n] == CV
               then next == start + |members|
                    && forall k | 0 <= k < |members| :: slots[start + k] == Slot(CV, TeamMemberScope, Some(members[k]))
               else next == start + 1 && slots[start] == Slot(required[n], ApplicationScope, None)
  {
    RequiredSlotsGrow(required, members, n + 1);
    assert required[..n + 1][..n] == required[..n];
    var before, part := RequiredSlots(required[..n], members), RequiredSlots(required[..n + 1], members);
    assert part == before + SlotsFor(required[n], members);
    assert forall k | 0 <= k < |part| :: RequiredSlots(required, members)[k] == part[k];
  }

  datatype Report = Report(isComplete: bool, satisfied: seq<Slot>, missing: seq<Slot>)

  function ActiveRows(rows: seq<Document>): seq<Document> {
    if rows == [] then []
    else ActiveRows(rows[..|rows| - 1]) + if rows[|rows| - 1].isActive then [rows[|rows| - 1]] else []
  }

  function ActiveKeys(documents: seq<Document>): set<string> {
    set d | d in documents :: SlotKey(d.slot)
  }

  function FilterSlots(slots: seq<Slot>, keys: set<string>, present: bool): seq<Slot> {
    if slots == [] then []
    else FilterSlots(slots[..|slots| - 1], keys, present)
         + if (SlotKey(slots[|slots| - 1]) in keys) == present then [slots[|slots| - 1]] else []
  }

  /** buildDocumentCompleteness; `documents` are the active rows the snapshot selects. */
  function BuildReport(call: ProgramType, required: seq<DocumentType>, members: seq<UserId>,
                       documents: seq<Document>): Report {
    if call != ProgramA then Report(true, [], [])
    else
      var slots := RequiredSlots(required, members);
      var keys := ActiveKeys(documents);
      var missing := FilterSlots(slots, keys, false);
      Report(|missing| == 0, FilterSlots(slots, keys, true), missing)
  }

  /** Program B requires no documents: its report is complete and lists none. */
  lemma ProgramBNeedsNothing(required: seq<DocumentType>, members: seq<UserId>, documents: seq<Document>)
    ensures BuildReport(ProgramB, required, members, documents) == Report(true, [], [])
  {}

  ghost predicate HasActive(rows: seq<Document>, slot: Slot) {
    exists k :: 0 <= k < |rows| && rows[k].isActive && rows[k].slot == slot
  }

  /** `all` is an order-preserving merge of its two parts: nothing lost, nothing shared. */
  ghost predicate IsMerge(all: seq<Slot>, left: seq<Slot>, right: seq<Slot>) {
    if all == [] then left == [] && right == []
    else
      var front, last := all[..|all| - 1], all[|all| - 1];
      || (left != [] && left[|left| - 1] == last && IsMerge(front, left[..|left| - 1], right))
      || (right != [] && right[|right| - 1] == last && IsMerge(front, left, right[..|right| - 1]))
  }

  lemma {:induction false} ActiveRowsExact(rows: seq<Document>)
    ensures forall d :: d in ActiveRows(rows) <==> d in rows && d.isActive
  {
    if rows != [] {
      ActiveRowsExact(rows[..|rows| - 1]);
      assert rows == rows[..|rows| - 1] + [rows[|rows| - 1]];
    }
  }

  lemma KeyLookupExact(rows: seq<Document>, slot: Slot)
    requires AllProducible(rows) && Producible(slot)
    ensures SlotKey(slot) in ActiveKeys(ActiveRows(rows)) <==> HasActive(rows, slot)
  {
    ActiveRowsExact(rows);
    if SlotKey(slot) in ActiveKeys(ActiveRows(rows)) {
      var d :| d in ActiveRows(rows) && SlotKey(d.slot) == SlotKey(slot);
      var k :| 0 <= k < |rows| && rows[k] == d;
      SlotKeyInjective(d.slot, slot);
    }
    if HasActive(rows, slot) {
      var k :| 0 <= k < |rows| && rows[k].isActive && rows[k].slot == slot;
      assert rows[k] in ActiveRows(rows);
    }
  }

  lemma {:induction false} FilterExact(slots: seq<Slot>, keys: set<string>, present: bool)
    ensures forall s :: s in FilterSlots(slots, keys, present) <==> s in slots && (SlotKey(s) in keys) == present
  {
    if slots != [] {
      var n := |slots| - 1;
      FilterExact(slots[..n], keys, present);
      assert slots == slots[..n] + [slots[n]];
    }
  }

  lemma {:induction false} FiltersMerge(slots: seq<Slot>, keys: set<string>)
    ensures IsMerge(slots, FilterSlots(slots, keys, true), FilterSlots(slots, keys, false))
  {
    if slots != [] {
      var n := |slots| - 1;
      var left, right := FilterSlots(slots[..n], keys, true), FilterSlots(slots[..n], keys, false);
      FiltersMerge(slots[..n], keys);
      assert (left + [slots[n]])[..|left|] == left && (right + [slots[n]])[..|right|] == right;
      if SlotKey(slots[n]) in keys {
        assert FilterSlots(slots, keys, true) == left + [slots[n]] && FilterSlots(slots, keys, false) == right;
      } else {
        assert FilterSlots(slots, keys, true) == left && FilterSlots(slots, keys, false) == right + [slots[n]];
      }
    }
  }

  /** What a Program A pack must hold, said without keys, slots or filters. */
  ghost predicate PackComplete(rows: seq<Document>, required: seq<DocumentType>, members: seq<UserId>) {
    && (forall t | t in required && t != CV :: HasActive(rows, Slot(t, ApplicationScope, None)))
    && (CV in required ==> forall m | m in members :: HasActive(rows, Slot(CV, TeamMemberScope, Some(m))))
  }

  /** The report splits the required slots in order by whether an active document fills them. */
  lemma ReportSplitsRequiredSlots(rows: seq<Document>, required: seq<DocumentType>, members: seq<UserId>)
    requires AllProducible(rows)
    ensures var r := BuildReport(ProgramA, required, members, ActiveRows(rows));
            && IsMerge(RequiredSlots(required, members), r.satisfied, r.missing)
            && (forall s :: s in r.satisfied <==> s in RequiredSlots(required, members) && HasActive(rows, s))
            && (forall s :: s in r.missing <==> s in RequiredSlots(required, members) && !HasActive(rows, s))
  {
    var slots, keys := RequiredSlots(required, members), ActiveKeys(ActiveRows(rows));
    FiltersMerge(slots, keys);
    FilterExact(slots, keys, true);
    FilterExact(slots, keys, false);
    RequiredSlotsExact(required, members);
    forall s | s in slots ensures SlotKey(s) in keys <==> HasActive(rows, s) { KeyLookupExact(rows, s); }
  }

  lemma NothingMissing(rows: seq<Document>, required: seq<DocumentType>, members: seq<UserId>)
    ensures (forall s | s in RequiredSlots(required, members) :: HasActive(rows, s))
       <==> PackComplete(rows, required, members)
  {
    var slots := RequiredSlots(required, members);
    RequiredSlotsExact(required, members);
    if forall s | s in slots :: HasActive(rows, s) {
      forall t | t in required && t != CV ensures HasActive(rows, Slot(t, ApplicationScope, None)) {
        assert Slot(t, ApplicationScope, None) in slots;
      }
      forall m | CV in required && m in members ensures HasActive(rows, Slot(CV, TeamMemberScope, Some(m))) {
        assert Slot(CV, TeamMemberScope, Some(m)) in slots;
      }
    }
    if PackComplete(rows, required, members) {
      forall s | s in slots ensures HasActive(rows, s) {
        assert s == if s.docType == CV then Slot(CV, TeamMemberScope, Some(s.member.value))
                    else Slot(s.docType, ApplicationScope, None);
      }
    }
  }

  /** isComplete says exactly that every required document, and every member's CV, is there and active. */
  lemma ReportIsCompleteExactly(rows: seq<Document>, required: seq<DocumentType>, members: seq<UserId>)
    requires AllProducible(rows)
    ensures BuildReport(ProgramA, required, members, ActiveRows(rows)).isComplete
       <==> PackComplete(rows, required, members)
  {
    var r := BuildReport(ProgramA, required, members, ActiveRows(rows));
    ReportSplitsRequiredSlots(rows, required, members);
    NothingMissing(rows, required, members);
    if !r.isComplete { assert r.missing[0] in r.missing; }
  }
}
