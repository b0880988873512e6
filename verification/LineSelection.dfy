/**
  How a stored selection turns into candidates, round after round, while the lists
  it picks from change under it.
 */
module LineSelection {
  import opened Wrappers
  import opened Text
  import opened LineList

  /** An entry with the list it came from. */
  datatype Indexed = Indexed(sub: string, entry: Entry)

  /** The line a selection is remembered to have named, and that line's list. */
  datatype Selection = Selection(subscription: string, selector: string, entryId: Option<EntryId>, entrySub: string)

  datatype Outcome = Candidates(lines: seq<Entry>) | Fails

  /** The loop's own copy of the selection, and the one in the configuration. */
  datatype State = State(sel: Selection, stored: Option<Selection>)

  /** What became of the stored selection since the last round: a request may have stored
      another or forgotten it. */
  datatype Config = Unchanged | Now(stored: Option<Selection>)

  /** What one round finds: the entries in order, whether the remembered list's host
      refuses this device, the one list in scope if there is just one, and the stored
      selection. */
  datatype Today = Today(all: seq<Indexed>, refused: bool, only: string, config: Config)

  /** Every entry carries the id of its own list, as `Entries` makes them. */
  ghost predicate FromTheirLists(all: seq<Indexed>) {
    forall e :: e in all ==> e.entry.id.list == e.sub
  }

  ghost predicate DistinctIds(all: seq<Indexed>) {
    forall i, j :: 0 <= i < j < |all| ==> all[i].entry.id != all[j].entry.id
  }

  /** A list of the configuration; no lines where it cannot be read today. */
  datatype List = List(url: string, lines: Option<seq<Parsed>>)

  /** A list's entries, each with the list. */
  function EntriesOf(url: string, lines: seq<Parsed>): (r: seq<Indexed>)
    ensures |r| == |lines|
  {
    seq(|lines|, i requires 0 <= i < |lines| => Indexed(url, EntryOf(url, lines, i)))
  }

  /** What is listed: one after the other, the entries of each list in scope that can be
      read. */
  function Listed(lists: seq<List>, inScope: string -> bool): (all: seq<Indexed>) {
    if lists == [] then []
    else
      var before, l := Listed(lists[..|lists| - 1], inScope), lists[|lists| - 1];
      if inScope(l.url) && l.lines.Some? then before + EntriesOf(l.url, l.lines.value) else before
  }

  predicate SomeFailed(lists: seq<List>, inScope: string -> bool) {
    exists i :: 0 <= i < |lists| && inScope(lists[i].url) && lists[i].lines.None?
  }

  /** Every list's entries in configuration order, those in scope; an error exactly when
      there are none and a list in scope could not be read. */
  method AllEntries(lists: seq<List>, inScope: string -> bool) returns (out: Option<seq<Indexed>>)
    ensures out == if Listed(lists, inScope) == [] && SomeFailed(lists, inScope) then None
        else Some(Listed(lists, inScope))
  {
    var all: seq<Indexed> := [];
    var failed := false;
    for k := 0 to |lists|
      invariant all == Listed(lists[..k], inScope)
      invariant failed <==> SomeFailed(lists[..k], inScope)
    {
      var l := lists[k];
      assert lists[..k + 1][..k] == lists[..k];
      OneMoreList(lists[..k], l, inScope);
      assert lists[..k + 1] == lists[..k] + [l];
      if inScope(l.url) {
        if l.lines.None? {
          failed := true;
        } else {
          var entries := Entries(l.url, l.lines.value);
          var own := seq(|entries|, i requires 0 <= i < |entries| => Indexed(l.url, entries[i]));
          assert own == EntriesOf(l.url, l.lines.value);
          all := all + own;
        }
      }
    }
    assert lists[..|lists|] == lists;
    out := if all == [] && failed then None else Some(all);
  }

  lemma OneMoreList(before: seq<List>, l: List, inScope: string -> bool)
    ensures SomeFailed(before + [l], inScope) <==> SomeFailed(before, inScope) || (inScope(l.url) && l.lines.None?)
  {
    var all := before + [l];
    assert forall i :: 0 <= i < |before| ==> all[i] == before[i];
    assert all[|before|] == l;
  }

  ghost predicate DistinctUrls(lists: seq<List>) {
    forall i, j :: 0 <= i < j < |lists| ==> lists[i].url != lists[j].url
  }

  ghost predicate OneOf(lists: seq<List>, inScope: string -> bool, sub: string) {
    exists i :: 0 <= i < |lists| && lists[i].url == sub && inScope(sub)
  }

  /** What is listed comes from lists in scope, each entry with the id of its own, and no
      two with the same. */
  lemma {:induction false} ListedIds(lists: seq<List>, inScope: string -> bool)
    requires DistinctUrls(lists)
    ensures var all := Listed(lists, inScope);
            && FromTheirLists(all) && DistinctIds(all)
            && forall e :: e in all ==> OneOf(lists, inScope, e.sub)
  {
    if lists != [] {
      var front, l := lists[..|lists| - 1], lists[|lists| - 1];
      ListedIds(front, inScope);
      var before := Listed(front, inScope);
      assert forall i :: 0 <= i < |front| ==> lists[i] == front[i];
      forall e | e in before ensures OneOf(lists, inScope, e.sub) && e.sub != l.url {
        var i :| 0 <= i < |front| && front[i].url == e.sub && inScope(e.sub);
        assert lists[i].url == e.sub;
      }
      if inScope(l.url) && l.lines.Some? {
        assert OneOf(lists, inScope, l.url);
        BehindOthers(before, l.url, l.lines.value);
      }
    }
  }

  lemma BehindOthers(before: seq<Indexed>, url: string, lines: seq<Parsed>)
    requires FromTheirLists(before) && DistinctIds(before)
    requires forall e :: e in before ==> e.sub != url
    ensures var all := before + EntriesOf(url, lines);
            && FromTheirLists(all) && DistinctIds(all)
            && forall e :: e in all ==> e in before || e.sub == url
  {
    var own := EntriesOf(url, lines);
    var all := before + own;
    forall i, j | 0 <= i < j < |all| ensures all[i].entry.id != all[j].entry.id {
      if i < |before| <= j {
        assert all[i] == before[i] && before[i] in before;
      } else if i >= |before| {
        IdsAreDistinct(url, lines, i - |before|, j - |before|);
      }
    }
  }

  function Flatten(all: seq<Indexed>): (r: seq<Entry>)
    ensures |r| == |all| && forall i :: 0 <= i < |all| ==> r[i] == all[i].entry
  {
    seq(|all|, i requires 0 <= i < |all| => all[i].entry)
  }

  function OfList(all: seq<Indexed>, sub: string): (r: seq<Indexed>)
    ensures forall e :: e in r <==> e in all && e.sub == sub
  {
    if all == [] then []
    else
      assert all == [all[0]] + all[1..];
      if all[0].sub == sub then [all[0]] + OfList(all[1..], sub) else OfList(all[1..], sub)
  }

  function ById(all: seq<Indexed>, id: EntryId): (r: Option<Indexed>)
    ensures r.Some? ==> r.value in all && r.value.entry.id == id
    ensures r.None? ==> forall e :: e in all ==> e.entry.id != id
  {
    if all == [] then None
    else if all[0].entry.id == id then Some(all[0])
    else
      assert all == [all[0]] + all[1..];
      ById(all[1..], id)
  }

  /** The line an index or a label named, when the candidates are that one. */
  function OneNamedLine(all: seq<Indexed>, cands: seq<Entry>, selector: string): (r: Option<Indexed>) {
    var name := TrimSpace(selector);
    if |cands| != 1 then None
    else if Atoi(name).None? && cands[0].labelText != name then None
    else ById(all, cands[0].id)
  }

  function Remember(s: State, id: EntryId, sub: string): (r: State) {
    var stored :=
      if s.stored.Some? && s.stored.value.selector == s.sel.selector &&
         s.stored.value.subscription == s.sel.subscription
      then Some(s.stored.value.(entryId := Some(id), entrySub := sub))
      else s.stored;
    if s.sel.entryId == Some(id) && s.sel.entrySub == sub then s
    else State(s.sel.(entryId := Some(id), entrySub := sub), stored)
  }

  function RememberNamed(s: State, all: seq<Indexed>, cands: seq<Entry>): (r: State) {
    var line := OneNamedLine(all, cands, s.sel.selector);
    if line.Some? then Remember(s, line.value.entry.id, line.value.sub) else s
  }

  /** A remembered line that is gone is looked for in its own list only. */
  function LineInItsList(s: State, t: Today): (r: (State, Outcome)) {
    var s' := if s.sel.entrySub == "" then s.(sel := s.sel.(entrySub := t.only)) else s;
    var n := Atoi(TrimSpace(s.sel.selector));
    if s'.sel.entrySub == "" || t.refused then (s', Fails)
    else if n.Some? then
      if 1 <= n.value <= |t.all| && t.all[n.value - 1].sub == s'.sel.entrySub then
        var cands := [t.all[n.value - 1].entry];
        (RememberNamed(s', t.all, cands), Candidates(cands))
      else (s', Fails)
    else
      var cands := Select(Flatten(OfList(t.all, s'.sel.entrySub)), s.sel.selector);
      if cands.None? then (s', Fails)
      else (RememberNamed(s', t.all, cands.value), Candidates(cands.value))
  }

  function Resolve(s: State, t: Today): (r: (State, Outcome)) {
    if s.sel.entryId.Some? then
      var found := ById(t.all, s.sel.entryId.value);
      if found.Some? then
        (if s.sel.entrySub != found.value.sub
         then Remember(s, found.value.entry.id, found.value.sub) else s,
         Candidates([found.value.entry]))
      else LineInItsList(s, t)
    else
      var cands := Select(Flatten(t.all), s.sel.selector);
      if cands.None? then (s, Fails)
      else (RememberNamed(s, t.all, cands.value), Candidates(cands.value))
  }

  function Configured(s: State, t: Today): (r: State) {
    if t.config.Now? then s.(stored := t.config.stored) else s
  }

  /** The rounds of a run of days, each finding what it finds. */
  function Rounds(s: State, days: seq<Today>): (r: (State, seq<Outcome>))
    ensures |r.1| == |days|
    decreases |days|
  {
    if days == [] then (s, [])
    else
      var (s', o) := Resolve(Configured(s, days[0]), days[0]);
      var (s'', os) := Rounds(s', days[1..]);
      (s'', [o] + os)
  }

  // ---------------------------------------------------------------------
  // A remembered line stays in its list

  /** A line of list `sub` is remembered. */
  ghost predicate Remembers(sel: Selection, sub: string) {
    sel.entrySub == sub != "" && sel.entryId.Some? && sel.entryId.value.list == sub
  }

  ghost predicate AllOf(o: Outcome, sub: string) {
    o.Candidates? ==> o.lines != [] && forall e :: e in o.lines ==> e.id.list == sub
  }

  /** The loop's copy and the stored one, where that is still the same selection, agree. */
  ghost predicate StoredAgrees(s: State) {
    s.stored.Some? && s.stored.value.selector == s.sel.selector &&
    s.stored.value.subscription == s.sel.subscription ==>
      s.stored.value.entryId == s.sel.entryId && s.stored.value.entrySub == s.sel.entrySub
  }

  lemma RememberedIn(s: State, all: seq<Indexed>, cands: seq<Entry>, sub: string)
    requires FromTheirLists(all) && Remembers(s.sel, sub)
    requires forall e :: e in cands ==> e.id.list == sub
    ensures Remembers(RememberNamed(s, all, cands).sel, sub)
    ensures StoredAgrees(s) ==> StoredAgrees(RememberNamed(s, all, cands))
    ensures RememberNamed(s, all, cands).sel.selector == s.sel.selector
  {
    var line := OneNamedLine(all, cands, s.sel.selector);
    if line.Some? {
      assert cands[0] in cands;
    }
  }

  /** One round: whatever is found today comes from the remembered list, and the
      remembered list stays, whatever is stored meanwhile; and where the stored selection
      agreed it still does. */
  lemma RoundStays(s: State, t: Today, sub: string)
    requires FromTheirLists(t.all) && Remembers(s.sel, sub)
    ensures var (s', o) := Resolve(s, t);
            && Remembers(s'.sel, sub) && AllOf(o, sub)
            && s'.sel.selector == s.sel.selector
            && (StoredAgrees(s) ==> StoredAgrees(s'))
  {
    var found := ById(t.all, s.sel.entryId.value);
    if found.None? && !t.refused {
      var n := Atoi(TrimSpace(s.sel.selector));
      if n.Some? {
        if 1 <= n.value <= |t.all| && t.all[n.value - 1].sub == sub {
          assert t.all[n.value - 1] in t.all;
          RememberedIn(s, t.all, [t.all[n.value - 1].entry], sub);
        }
      } else {
        var own := OfList(t.all, sub);
        var cands := Select(Flatten(own), s.sel.selector);
        if cands.Some? {
          forall e | e in cands.value ensures e.id.list == sub {
            var i :| 0 <= i < |own| && Flatten(own)[i] == e;
            assert own[i] in own;
          }
          RememberedIn(s, t.all, cands.value, sub);
        }
      }
    }
  }

  /** However the lists change, are reordered, go or come back, and whatever is stored or
      forgotten meanwhile: every later round yields lines of the remembered list only, and
      that list is never another.  The stored selection agrees as long as nobody else
      stores one. */
  lemma {:induction false} SelectionStaysInItsList(s: State, days: seq<Today>, sub: string)
    requires forall t :: t in days ==> FromTheirLists(t.all)
    requires Remembers(s.sel, sub)
    ensures Remembers(Rounds(s, days).0.sel, sub)
    ensures forall k :: 0 <= k < |days| ==> AllOf(Rounds(s, days).1[k], sub)
    ensures StoredAgrees(s) && (forall t :: t in days ==> t.config.Unchanged?) ==> StoredAgrees(Rounds(s, days).0)
    decreases |days|
  {
    if days != [] {
      var c := Configured(s, days[0]);
      RoundStays(c, days[0], sub);
      var (s', o) := Resolve(c, days[0]);
      SelectionStaysInItsList(s', days[1..], sub);
      assert forall k :: 1 <= k < |days| ==> Rounds(s, days).1[k] == Rounds(s', days[1..]).1[k - 1];
    }
  }

  /** A selector that is an index, or the label of an entry. */
  predicate NamesALine(entries: seq<Entry>, selector: string) {
    Atoi(TrimSpace(selector)).Some? || Labelled(entries, TrimSpace(selector)) != []
  }

  /** The first round that an index or a label resolves in remembers the line and its
      list. */
  lemma FirstRoundRemembers(s: State, t: Today)
    requires FromTheirLists(t.all) && s.sel.entryId.None? && StoredAgrees(s)
    requires forall e :: e in t.all ==> e.sub != ""
    requires NamesALine(Flatten(t.all), s.sel.selector)
    requires Resolve(s, t).1.Candidates?
    ensures var (s', o) := Resolve(s, t);
            && |o.lines| == 1 && s'.sel.entryId == Some(o.lines[0].id)
            && Remembers(s'.sel, o.lines[0].id.list) && StoredAgrees(s')
  {
    var all := Flatten(t.all);
    NamedIsOne(all, s.sel.selector);
    var cands := Select(all, s.sel.selector).value;
    var i :| 0 <= i < |all| && all[i] == cands[0];
    assert t.all[i] in t.all;
    var line := ById(t.all, cands[0].id);
    assert OneNamedLine(t.all, cands, s.sel.selector) == line;
    assert line.Some? && line.value in t.all;
  }

  /** While the remembered line is anywhere in the lists, it is the one candidate. */
  lemma RememberedLineIsFound(s: State, t: Today, e: Indexed)
    requires s.sel.entryId == Some(e.entry.id) && e in t.all && DistinctIds(t.all)
    ensures Resolve(s, t).1 == Candidates([e.entry])
  {
    var found := ById(t.all, e.entry.id).value;
    var i :| 0 <= i < |t.all| && t.all[i] == e;
    var j :| 0 <= j < |t.all| && t.all[j] == found;
    assert i == j;
  }

  // ---------------------------------------------------------------------
  // What a round comes to

  ghost predicate InLists(all: seq<Indexed>, id: EntryId) {
    exists e :: e in all && e.entry.id == id
  }

  /** A line that is gone while its list is served is looked for by its index again: it is
      the entry of that number if that is of its list, and else nothing. */
  lemma GoneLineByIndex(s: State, t: Today, sub: string, n: int)
    requires Remembers(s.sel, sub) && !InLists(t.all, s.sel.entryId.value) && !t.refused
    requires Atoi(TrimSpace(s.sel.selector)) == Some(n)
    ensures Resolve(s, t).1 ==
            if 1 <= n <= |t.all| && t.all[n - 1].sub == sub then Candidates([t.all[n - 1].entry]) else Fails
  {
    assert ById(t.all, s.sel.entryId.value).None?;
  }

  /** Or by its label: it is the one entry of that label in its list, wherever in it, and
      whatever other lists have of that label. */
  lemma GoneLineByLabel(s: State, t: Today, sub: string, e: Indexed)
    requires Remembers(s.sel, sub) && !InLists(t.all, s.sel.entryId.value) && !t.refused
    requires var name := TrimSpace(s.sel.selector);
             && Atoi(name).None? && name != ""
             && e in t.all && e.sub == sub && e.entry.labelText == name
             && |Labelled(Flatten(OfList(t.all, sub)), name)| == 1
    ensures Resolve(s, t).1 == Candidates([e.entry])
  {
    assert ById(t.all, s.sel.entryId.value).None?;
    InFlattened(OfList(t.all, sub), e);
    OneOfTheLabel(Flatten(OfList(t.all, sub)), s.sel.selector, e.entry);
  }

  lemma OneOfTheLabel(entries: seq<Entry>, selector: string, e: Entry)
    requires var name := TrimSpace(selector);
             && Atoi(name).None? && name != "" && e in entries && e.labelText == name
             && |Labelled(entries, name)| == 1
    ensures Select(entries, selector) == Some([e])
  {
    var r := Labelled(entries, TrimSpace(selector));
    assert e in r;
    assert r == [e];
  }

  lemma InFlattened(all: seq<Indexed>, e: Indexed)
    requires e in all
    ensures e.entry in Flatten(all)
  {
    var i :| 0 <= i < |all| && all[i] == e;
    assert Flatten(all)[i] == e.entry;
  }

  /** A line remembered without its list, and gone, is looked for in the one list in scope
      if there is just one, and else nowhere. */
  lemma OldSelectionIsOfTheOnlyList(s: State, t: Today)
    requires s.sel.entryId.Some? && !InLists(t.all, s.sel.entryId.value) && s.sel.entrySub == ""
    ensures t.only == "" ==> Resolve(s, t) == (s, Fails)
    ensures t.only != "" ==> Resolve(s, t) == Resolve(s.(sel := s.sel.(entrySub := t.only)), t)
  {
    assert ById(t.all, s.sel.entryId.value).None?;
  }

  /** A line found by its id is remembered with the list it is in, also where it was
      remembered without one; and so in the stored selection while that is the same. */
  lemma FoundLineGetsItsList(s: State, t: Today)
    requires FromTheirLists(t.all) && s.sel.entryId.Some? && InLists(t.all, s.sel.entryId.value)
    ensures var sub, s' := s.sel.entryId.value.list, Resolve(s, t).0;
            && s'.sel == s.sel.(entrySub := sub)
            && (s.sel.entrySub == sub ==> s' == s)
            && (s.sel.entrySub != sub && SameSelection(s) ==>
                  s'.stored == Some(s.stored.value.(entryId := s.sel.entryId, entrySub := sub)))
  {
    var found := ById(t.all, s.sel.entryId.value);
    assert found.Some?;
  }

  /** The stored selection is this one. */
  predicate SameSelection(s: State) {
    && s.stored.Some?
    && s.stored.value.selector == s.sel.selector && s.stored.value.subscription == s.sel.subscription
  }

  /** What a round writes: the line and its list, in the loop's copy, and in the stored one
      only where that is still the same selection.  What was asked for stays as it is. */
  ghost predicate WritesOnlyTheLine(s: State, s': State) {
    && s'.sel == s.sel.(entryId := s'.sel.entryId, entrySub := s'.sel.entrySub)
    && (s'.stored == s.stored ||
        (&& SameSelection(s)
         && s'.stored == Some(s.stored.value.(entryId := s'.sel.entryId, entrySub := s'.sel.entrySub))))
  }

  lemma RoundWritesOnlyTheLine(s: State, t: Today)
    ensures WritesOnlyTheLine(s, Resolve(s, t).0)
  {
  }

  /** However many rounds: a selection that another request stored is never written over. */
  lemma {:induction false} AnotherSelectionStays(s: State, days: seq<Today>)
    requires !SameSelection(s) && forall t :: t in days ==> t.config.Unchanged?
    ensures Rounds(s, days).0.stored == s.stored
    decreases |days|
  {
    if days != [] {
      RoundWritesOnlyTheLine(s, days[0]);
      AnotherSelectionStays(Resolve(s, days[0]).0, days[1..]);
    }
  }

  /** While its list's host refuses this device, a line that is gone is waited for. */
  lemma RefusedListWaits(s: State, t: Today, sub: string)
    requires Remembers(s.sel, sub) && !InLists(t.all, s.sel.entryId.value) && t.refused
    ensures Resolve(s, t) == (s, Fails)
  {
    assert ById(t.all, s.sel.entryId.value).None?;
  }

  /** A country yields every line of it, of whichever list, in their order; and it stays a
      country: no line is remembered for it, not even the one line of a small one. */
  lemma CountryYieldsAll(s: State, t: Today)
    requires s.sel.entryId.None?
    requires var name, all := TrimSpace(s.sel.selector), Flatten(t.all);
             && name != "" && Atoi(name).None? && Labelled(all, name) == [] && SomeIn(all, name)
    ensures exists country ::
              && Lower(country) == Lower(TrimSpace(s.sel.selector))
              && Resolve(s, t).1 == Candidates(Filter(Flatten(t.all), InCountry(country)))
    ensures Resolve(s, t).0 == s
  {
    var name, all := TrimSpace(s.sel.selector), Flatten(t.all);
    SelectMeans(all, s.sel.selector);
    NoneLabelledIs(all, name);
    var country := FirstFolded(Countries(all), name).value;
    PickedInOrder(all, country);
    assert Resolve(s, t).1 == Candidates(OfCountry(all, country));
    assert forall e :: e in OfCountry(all, country) ==> e in all;
  }

  lemma NoneLabelledIs(entries: seq<Entry>, name: string)
    requires Labelled(entries, name) == []
    ensures !exists e :: e in entries && e.labelText == name
  {
    forall e | e in entries ensures e.labelText != name {
      assert e.labelText == name <==> e in Labelled(entries, name);
    }
  }

  /** And a list's own lines are picked in their order. */
  lemma {:induction false} OwnLinesInOrder(all: seq<Indexed>, sub: string)
    ensures OfList(all, sub) == Filter(all, IsOf(sub))
  {
    if all != [] {
      OwnLinesInOrder(all[1..], sub);
    }
  }

  function IsOf(sub: string): (p: Indexed -> bool)
    ensures forall e :: p(e) <==> e.sub == sub
  {
    (e: Indexed) => e.sub == sub
  }
}
