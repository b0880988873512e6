/** A subscription's lines as entries, and what a selector picks of them. */
module LineList {
  import opened Wrappers
  import opened Text

  /** An id is a digest of the list, the label and how often the label came before;
      it is taken to be injective in the three. */
  datatype EntryId = EntryId(list: string, labelText: string, ordinal: nat)

  /** A line as the link parsers leave it. */
  datatype Parsed = Parsed(raw: string, labelText: string, country: string)

  datatype Entry = Entry(id: EntryId, labelText: string, country: string, raw: string)

  function Count(lines: seq<Parsed>, name: string): (n: nat) {
    if lines == [] then 0
    else Count(lines[..|lines| - 1], name) + (if lines[|lines| - 1].labelText == name then 1 else 0)
  }

  /** The i-th line's entry: a repeated label is counted up. */
  function EntryOf(list: string, lines: seq<Parsed>, i: nat): (e: Entry)
    requires i < |lines|
  {
    var l := lines[i];
    Entry(EntryId(list, l.labelText, Count(lines[..i + 1], l.labelText)), l.labelText, l.country, l.raw)
  }

  method Entries(list: string, lines: seq<Parsed>) returns (out: seq<Entry>)
    ensures |out| == |lines|
    ensures forall i :: 0 <= i < |lines| ==> out[i] == EntryOf(list, lines, i)
  {
    var seen: map<string, nat> := map[];
    out := [];
    for i := 0 to |lines|
      invariant |out| == i
      invariant forall name :: (if name in seen then seen[name] else 0) == Count(lines[..i], name)
      invariant forall j :: 0 <= j < i ==> out[j] == EntryOf(list, lines, j)
    {
      var l := lines[i];
      assert lines[..i + 1][..i] == lines[..i];
      var n := (if l.labelText in seen then seen[l.labelText] else 0) + 1;
      seen := seen[l.labelText := n];
      out := out + [Entry(EntryId(list, l.labelText, n), l.labelText, l.country, l.raw)];
    }
  }

  lemma {:induction false} CountGrows(lines: seq<Parsed>, name: string, i: nat, j: nat)
    requires i <= j <= |lines|
    ensures Count(lines[..i], name) <= Count(lines[..j], name)
    decreases j - i
  {
    if i < j {
      CountGrows(lines, name, i, j - 1);
      assert lines[..j][..j - 1] == lines[..j - 1];
    }
  }

  /** The lines up to the i-th that have a label. */
  ghost function SameLabel(lines: seq<Parsed>, i: nat): (places: set<nat>)
    requires i < |lines|
  {
    set j: nat | j <= i && lines[j].labelText == lines[i].labelText
  }

  lemma {:induction false} CountIs(lines: seq<Parsed>, n: nat, name: string)
    requires n <= |lines|
    ensures Count(lines[..n], name) == |set j: nat | j < n && lines[j].labelText == name|
  {
    var places := set j: nat | j < n && lines[j].labelText == name;
    if n == 0 {
      assert places == {};
    } else {
      CountIs(lines, n - 1, name);
      var before := set j: nat | j < n - 1 && lines[j].labelText == name;
      assert lines[..n][..n - 1] == lines[..n - 1];
      assert places == if lines[n - 1].labelText == name then before + {n - 1} else before;
    }
  }

  /** A line's entry, told by the line: its own text, label and country, and an id of its
      list, its label, and how many lines up to it have that label. */
  lemma EntryMeans(list: string, lines: seq<Parsed>, i: nat)
    requires i < |lines|
    ensures var e, l := EntryOf(list, lines, i), lines[i];
            && e.raw == l.raw && e.labelText == l.labelText && e.country == l.country
            && e.id.list == list && e.id.labelText == l.labelText && e.id.ordinal == |SameLabel(lines, i)|
  {
    CountIs(lines, i + 1, lines[i].labelText);
    assert SameLabel(lines, i) == set j: nat | j < i + 1 && lines[j].labelText == lines[i].labelText;
  }

  /** Two lines of a list never share an id, however they are labelled. */
  lemma IdsAreDistinct(list: string, lines: seq<Parsed>, i: nat, j: nat)
    requires i < j < |lines|
    ensures EntryOf(list, lines, i).id != EntryOf(list, lines, j).id
  {
    var name := lines[j].labelText;
    CountGrows(lines, name, i + 1, j);
    assert lines[..j + 1][..j] == lines[..j];
  }

  // ---------------------------------------------------------------------
  // Selectors

  predicate AllDigits(s: string) {
    forall i :: 0 <= i < |s| ==> '0' <= s[i] <= '9'
  }

  function Digits(s: string): (n: nat)
    requires AllDigits(s)
  {
    if s == "" then 0 else 10 * Digits(s[..|s| - 1]) + (s[|s| - 1] as int - '0' as int)
  }

  /** A decimal number with an optional sign, in 64 bits. */
  function Atoi(s: string): (r: Option<int>) {
    var digits := if s != "" && (s[0] == '+' || s[0] == '-') then s[1..] else s;
    if digits == "" || !AllDigits(digits) then None
    else
      var n: int := Digits(digits);
      var v := if s[0] == '-' then -n else n;
      if -0x8000_0000_0000_0000 <= v < 0x8000_0000_0000_0000 then Some(v) else None
  }

  /** A number as it is written. */
  function Decimal(n: nat): (s: string)
    ensures s != "" && AllDigits(s)
  {
    var last := ('0' as int + n % 10) as char;
    if n < 10 then [last] else Decimal(n / 10) + [last]
  }

  lemma {:induction false} DigitsDecimal(n: nat)
    ensures Digits(Decimal(n)) == n
  {
    if n >= 10 {
      DigitsDecimal(n / 10);
      var s := Decimal(n);
      assert s[..|s| - 1] == Decimal(n / 10);
    } else {
      assert Decimal(n)[..0] == "";
    }
  }

  const INT_MAX: int := 0x7FFF_FFFF_FFFF_FFFF

  /** A number is read as it is written, as far as 64 bits go. */
  lemma AtoiReads(n: nat)
    ensures n <= INT_MAX ==> Atoi(Decimal(n)) == Some(n)
    ensures n > INT_MAX ==> Atoi(Decimal(n)).None?
  {
    DigitsDecimal(n);
    assert '0' <= Decimal(n)[0] <= '9';
  }

  /** A sign in front of it is read too, down to the least number of 64 bits. */
  lemma AtoiReadsSigned(n: nat)
    ensures Atoi("+" + Decimal(n)) == if n <= INT_MAX then Some(n) else None
    ensures var v: int := n; Atoi("-" + Decimal(n)) == if n <= INT_MAX + 1 then Some(-v) else None
  {
    DigitsDecimal(n);
    assert ("+" + Decimal(n))[1..] == Decimal(n) && ("-" + Decimal(n))[1..] == Decimal(n);
  }

  /** What holds anything but digits behind its sign is no number. */
  lemma AtoiRefuses(s: string, i: nat)
    requires i < |s| && !('0' <= s[i] <= '9') && (i > 0 || (s[0] != '+' && s[0] != '-'))
    ensures Atoi(s).None?
  {
    if s[0] == '+' || s[0] == '-' {
      assert s[1..][i - 1] == s[i];
    }
  }

  function OfCountry(entries: seq<Entry>, country: string): (r: seq<Entry>)
    ensures forall e :: e in r <==> e in entries && e.country == country
  {
    if entries == [] then []
    else
      var front, last := entries[..|entries| - 1], entries[|entries| - 1];
      assert entries == front + [last];
      if last.country == country then OfCountry(front, country) + [last] else OfCountry(front, country)
  }

  function Labelled(entries: seq<Entry>, name: string): (r: seq<Entry>)
    ensures forall e :: e in r <==> e in entries && e.labelText == name
  {
    if entries == [] then []
    else
      var front, last := entries[..|entries| - 1], entries[|entries| - 1];
      assert entries == front + [last];
      if last.labelText == name then Labelled(front, name) + [last] else Labelled(front, name)
  }

  function InCountry(country: string): (p: Entry -> bool)
    ensures forall e :: p(e) <==> e.country == country
  {
    (e: Entry) => e.country == country
  }

  function WithLabel(name: string): (p: Entry -> bool)
    ensures forall e :: p(e) <==> e.labelText == name
  {
    (e: Entry) => e.labelText == name
  }

  /** Both are picked in the order of the list. */
  lemma {:induction false} PickedInOrder(entries: seq<Entry>, what: string)
    ensures OfCountry(entries, what) == Filter(entries, InCountry(what))
    ensures Labelled(entries, what) == Filter(entries, WithLabel(what))
  {
    if entries != [] {
      var front, last := entries[..|entries| - 1], entries[|entries| - 1];
      PickedInOrder(front, what);
      FilterSnoc(front, last, InCountry(what));
      FilterSnoc(front, last, WithLabel(what));
      assert entries == front + [last];
    }
  }

  /** The countries of the entries, in the order they first come up. */
  function Countries(entries: seq<Entry>): (r: seq<string>)
    ensures forall c :: c in r <==> c != "" && exists e :: e in entries && e.country == c
  {
    if entries == [] then []
    else
      var last := entries[|entries| - 1];
      assert entries == entries[..|entries| - 1] + [last];
      var before := Countries(entries[..|entries| - 1]);
      if last.country == "" || last.country in before then before else before + [last.country]
  }

  datatype Group = Group(country: string, entries: seq<Entry>)

  /** The groups of the first n entries, by the country's place among them. */
  ghost predicate Grouped(out: seq<Group>, entries: seq<Entry>) {
    && |out| == |Countries(entries)|
    && forall i :: 0 <= i < |out| ==>
         out[i] == Group(Countries(entries)[i], OfCountry(entries, Countries(entries)[i]))
  }

  ghost predicate Indexes(index: map<string, nat>, countries: seq<string>) {
    && (forall c :: c in index <==> c in countries)
    && (forall c :: c in index ==> index[c] < |countries| && countries[index[c]] == c)
    && (forall i, j :: 0 <= i < j < |countries| ==> countries[i] != countries[j])
  }

  /** An entry put behind those of its group. */
  function PutIn(out: seq<Group>, i: nat, e: Entry): (r: seq<Group>)
    requires i < |out|
  {
    out[i := out[i].(entries := out[i].entries + [e])]
  }

  lemma OneMoreEntry(front: seq<Entry>, e: Entry)
    ensures Countries(front + [e]) ==
            if e.country == "" || e.country in Countries(front) then Countries(front)
                else Countries(front) + [e.country]
    ensures forall c :: OfCountry(front + [e], c) ==
              if e.country == c then OfCountry(front, c) + [e] else OfCountry(front, c)
  {
    assert (front + [e])[..|front|] == front;
  }

  lemma KnownCountry(out: seq<Group>, index: map<string, nat>, front: seq<Entry>, e: Entry)
    requires Grouped(out, front) && Indexes(index, Countries(front)) && e.country in index
    ensures Grouped(PutIn(out, index[e.country], e), front + [e]) && Countries(front + [e]) == Countries(front)
  {
    OneMoreEntry(front, e);
  }

  lemma NewCountry(out: seq<Group>, front: seq<Entry>, e: Entry)
    requires Grouped(out, front) && e.country != "" && e.country !in Countries(front)
    ensures Grouped(PutIn(out + [Group(e.country, [])], |out|, e), front + [e])
    ensures Countries(front + [e]) == Countries(front) + [e.country]
  {
    OneMoreEntry(front, e);
    NoneBefore(front, e.country);
    assert [] + [e] == [e];
  }

  lemma NoCountry(out: seq<Group>, front: seq<Entry>, e: Entry)
    requires Grouped(out, front) && e.country == ""
    ensures Grouped(out, front + [e]) && Countries(front + [e]) == Countries(front)
  {
    OneMoreEntry(front, e);
    var countries := Countries(front);
    assert forall i :: 0 <= i < |countries| ==> countries[i] in countries;
  }

  lemma NewIndex(index: map<string, nat>, countries: seq<string>, c: string)
    requires Indexes(index, countries) && c !in countries
    ensures Indexes(index[c := |countries|], countries + [c])
  {
  }

  /** One group for each country there is, in the order they first come up, with exactly
      its entries, in theirs. */
  method GroupByCountry(entries: seq<Entry>) returns (out: seq<Group>)
    ensures Grouped(out, entries)
  {
    out := [];
    var index: map<string, nat> := map[];
    for k := 0 to |entries|
      invariant Grouped(out, entries[..k])
      invariant Indexes(index, Countries(entries[..k]))
    {
      ghost var front := entries[..k];
      var e := entries[k];
      assert entries[..k + 1] == front + [e];
      if e.country == "" {
        NoCountry(out, front, e);
      } else {
        if e.country !in index {
          NewCountry(out, front, e);
          NewIndex(index, Countries(front), e.country);
          index := index[e.country := |out|];
          out := out + [Group(e.country, [])];
        } else {
          KnownCountry(out, index, front, e);
        }
        var i := index[e.country];
        out := out[i := out[i].(entries := out[i].entries + [e])];
      }
    }
    assert entries[..|entries|] == entries;
  }

  lemma NoneBefore(entries: seq<Entry>, country: string)
    requires country != "" && country !in Countries(entries)
    ensures OfCountry(entries, country) == []
  {
  }

  /** The first of the countries that is the wanted one in any case. */
  function FirstFolded(countries: seq<string>, wanted: string): (r: Option<string>)
    ensures r.Some? ==> r.value in countries && Lower(r.value) == Lower(wanted)
    ensures r.None? ==> forall c :: c in countries ==> Lower(c) != Lower(wanted)
  {
    if countries == [] then None
    else if Lower(countries[0]) == Lower(wanted) then Some(countries[0])
    else FirstFolded(countries[1..], wanted)
  }

  /** A 1-based index, an exact label of one entry, or a country; nothing is guessed. */
  function Select(entries: seq<Entry>, selector: string): (r: Option<seq<Entry>>)
    ensures r.Some? ==> r.value != [] && forall e :: e in r.value ==> e in entries
  {
    var sel := TrimSpace(selector);
    var n := Atoi(sel);
    var byLabel := Labelled(entries, sel);
    if sel == "" then None
    else if n.Some? then
      if 1 <= n.value <= |entries| then Some([entries[n.value - 1]]) else None
    else if |byLabel| == 1 then Some(byLabel)
    else if |byLabel| > 1 then None
    else
      var country := FirstFolded(Countries(entries), sel);
      if country.None? then None
      else
        CountryHasEntries(entries, country.value);
        Some(OfCountry(entries, country.value))
  }

  /** Some entry's country is the wanted one, in any case. */
  ghost predicate SomeIn(entries: seq<Entry>, wanted: string) {
    exists e :: e in entries && e.country != "" && Lower(e.country) == Lower(wanted)
  }

  ghost predicate AreThoseOf(r: seq<Entry>, entries: seq<Entry>, country: string) {
    forall e :: e in r <==> e in entries && e.country == country
  }

  /** What a selector means: an index picks its entry; else a label picks the one entry of
      that label, and nothing where there are more; else a country picks exactly the
      entries of one country that is it in any case; and nothing else picks anything. */
  lemma SelectMeans(entries: seq<Entry>, selector: string)
    ensures var sel, r := TrimSpace(selector), Select(entries, selector);
            var n := Atoi(sel);
            && (n.Some? ==> r == if 1 <= n.value <= |entries| then Some([entries[n.value - 1]]) else None)
            && (n.None? && (exists e :: e in entries && e.labelText == sel) ==>
                  (r.Some? <==> sel != "" && |Labelled(entries, sel)| == 1)
                  && (r.Some? ==> |r.value| == 1 && r.value[0].labelText == sel))
            && (n.None? && !(exists e :: e in entries && e.labelText == sel) ==>
                  (r.Some? <==> sel != "" && SomeIn(entries, sel))
                  && (r.Some? ==> exists c :: Lower(c) == Lower(sel) && AreThoseOf(r.value, entries, c)))
  {
    var sel, r := TrimSpace(selector), Select(entries, selector);
    var byLabel := Labelled(entries, sel);
    assert Atoi("").None?;
    if Atoi(sel).None? && sel != "" {
      if e :| e in entries && e.labelText == sel {
        assert e in byLabel;
        if r.Some? {
          assert r.value[0] in byLabel;
        }
      } else {
        NoneLabelled(entries, sel);
        var country := FirstFolded(Countries(entries), sel);
        if country.Some? {
          assert AreThoseOf(r.value, entries, country.value);
        }
      }
    }
  }

  lemma NoneLabelled(entries: seq<Entry>, name: string)
    requires forall e :: e in entries ==> e.labelText != name
    ensures Labelled(entries, name) == []
  {
    if Labelled(entries, name) != [] {
      assert Labelled(entries, name)[0] in Labelled(entries, name);
    }
  }

  lemma {:induction false} CountryHasEntries(entries: seq<Entry>, country: string)
    requires country in Countries(entries)
    ensures OfCountry(entries, country) != []
  {
    if entries[|entries| - 1].country != country {
      CountryHasEntries(entries[..|entries| - 1], country);
    }
  }

  /** An index or a label that selects at all selects one entry. */
  lemma NamedIsOne(entries: seq<Entry>, selector: string)
    requires Select(entries, selector).Some?
    requires Atoi(TrimSpace(selector)).Some? || Labelled(entries, TrimSpace(selector)) != []
    ensures |Select(entries, selector).value| == 1
    ensures Atoi(TrimSpace(selector)).Some? || Select(entries, selector).value[0].labelText == TrimSpace(selector)
    ensures Select(entries, selector).value[0] in entries
  {
    var r := Select(entries, selector).value;
    assert r[0] in r;
  }
}
