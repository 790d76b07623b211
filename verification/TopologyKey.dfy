/** The canonical key of a topology (`Topology.Key`). */
module TopologyKey {
  import opened Strings
  import opened Sorting
  import opened Topology

  /** The part of a host the key shows. */
  datatype Entry = Entry(host: string, port: int, availability: Availability, role: Role)

  function EntryOf(h: HostInfo): Entry {
    Entry(h.host, h.port, h.availability, h.role)
  }

  function EntriesOf(hosts: Hosts): (r: seq<Entry>)
    ensures |r| == |hosts|
    ensures forall i :: 0 <= i < |hosts| ==> r[i] == EntryOf(hosts[i])
  {
    seq(|hosts|, i requires 0 <= i < |hosts| => EntryOf(hosts[i]))
  }

  function AvailabilityText(a: Availability): string {
    match a
    case Available => "available"
    case Unavailable => "unavailable"
  }

  function RoleText(r: Role): string {
    match r
    case Reader => "reader"
    case Writer => "writer"
    case Unknown => "unknown"
  }

  /** What follows the host name in an entry. */
  function Suffix(port: int, availability: Availability, role: Role): string {
    [':'] + (Itoa(port) + [':'] + (AvailabilityText(availability) + [':'] + (RoleText(role) + ['|'])))
  }

  /** `%s:%d:%s:%s|` */
  function Render(e: Entry): string {
    e.host + Suffix(e.port, e.availability, e.role)
  }

  function Texts(es: seq<Entry>): seq<string> {
    seq(|es|, i requires 0 <= i < |es| => Render(es[i]))
  }

  function RenderAll(es: seq<Entry>): string {
    Concat(Texts(es))
  }

  // Go's `<` on strings.

  predicate Less(a: string, b: string) {
    b != "" && (a == "" || a[0] < b[0] || (a[0] == b[0] && Less(a[1..], b[1..])))
  }

  lemma {:induction false} LessTotal(a: string, b: string)
    ensures a == b || Less(a, b) || Less(b, a)
  {
    if a != "" && b != "" && a[0] == b[0] {
      LessTotal(a[1..], b[1..]);
      if a[1..] == b[1..] {
        assert a == [a[0]] + a[1..] && b == [b[0]] + b[1..];
      }
    }
  }

  lemma {:induction false} LessIrreflexive(a: string)
    ensures !Less(a, a)
  {
    if a != "" {
      LessIrreflexive(a[1..]);
    }
  }

  lemma {:induction false} LessTransitive(a: string, b: string, c: string)
    requires Less(a, b) && Less(b, c)
    ensures Less(a, c)
  {
    if a != "" && a[0] == b[0] && b[0] == c[0] {
      LessTransitive(a[1..], b[1..], c[1..]);
    }
  }

  predicate NameLess(a: HostInfo, b: HostInfo) {
    Less(a.host, b.host)
  }

  /** The key, by one particular sort. */
  function Key(hosts: Hosts): string {
    RenderAll(EntriesOf(Sort(hosts, NameLess)))
  }

  lemma NotLessTransitive(a: string, b: string, c: string)
    requires !Less(b, a) && !Less(c, b)
    ensures !Less(c, a)
  {
    LessTotal(a, b);
    if Less(c, a) && a != b {
      LessTransitive(c, a, b);
    }
  }

  lemma NameOrder()
    ensures IsOrder(NameLess)
  {
    forall a: HostInfo, b: HostInfo | Less(a.host, b.host) ensures !Less(b.host, a.host) {
      if Less(b.host, a.host) {
        LessTransitive(a.host, b.host, a.host);
        LessIrreflexive(a.host);
      }
    }
    forall a: HostInfo, b: HostInfo, c: HostInfo | !Less(b.host, a.host) && !Less(c.host, b.host)
      ensures !Less(c.host, a.host)
    {
      NotLessTransitive(a.host, b.host, c.host);
    }
  }

  // ---------------------------------------------------------------------------------------------
  // A strictly sorted list is determined by its elements
  // ---------------------------------------------------------------------------------------------

  predicate StrictlySorted(es: seq<Entry>) {
    forall i, j :: 0 <= i < j < |es| ==> Less(es[i].host, es[j].host)
  }

  lemma SortedHostsAreStrict(hosts: Hosts)
    requires Ordered(hosts, NameLess) && DistinctNames(hosts)
    ensures StrictlySorted(EntriesOf(hosts))
  {
    forall i, j | 0 <= i < j < |hosts| ensures Less(hosts[i].host, hosts[j].host) {
      assert !NameLess(hosts[j], hosts[i]);
      LessTotal(hosts[i].host, hosts[j].host);
    }
  }

  lemma {:induction false} StrictlySortedUnique(a: seq<Entry>, b: seq<Entry>)
    requires StrictlySorted(a) && StrictlySorted(b)
    requires forall e :: e in a <==> e in b
    ensures a == b
  {
    assert a != [] ==> a[0] in b;
    assert b != [] ==> b[0] in a;
    if a != [] && b != [] {
      assert a[0] in b && b[0] in a;
      var i :| 0 <= i < |b| && b[i] == a[0];
      var j :| 0 <= j < |a| && a[j] == b[0];
      if i > 0 && j > 0 {
        LessTransitive(a[0].host, a[j].host, a[0].host);
        LessIrreflexive(a[0].host);
      }
      assert a[0] == b[0];
      TailsAgree(a, b);
      TailsAgree(b, a);
      StrictlySortedUnique(a[1..], b[1..]);
    }
  }

  lemma TailsAgree(a: seq<Entry>, b: seq<Entry>)
    requires a != [] && b != [] && a[0] == b[0] && StrictlySorted(a)
    requires forall e :: e in a ==> e in b
    ensures forall e :: e in a[1..] ==> e in b[1..]
  {
    forall e | e in a[1..] ensures e in b[1..] {
      var i :| 0 <= i < |a[1..]| && a[1..][i] == e;
      assert a[i + 1] == e;
      LessIrreflexive(e.host);
      assert Less(a[0].host, a[i + 1].host);
      assert a[i + 1] in a;
      var j :| 0 <= j < |b| && b[j] == e;
      assert b[1..][j - 1] == e;
    }
  }

  lemma Rearranged(hosts: Hosts, sorted: Hosts)
    requires DistinctNames(hosts) && multiset(sorted) == multiset(hosts)
    ensures DistinctNames(sorted) && SameEntries(hosts, sorted)
  {
    SameElements(hosts, sorted);
    RearrangedNoDuplicates(hosts, sorted);
    forall i, j | 0 <= i < j < |sorted| ensures sorted[i].host != sorted[j].host {
      assert sorted[i] in hosts && sorted[j] in hosts;
    }
    SubsetEntries(hosts, sorted);
    SubsetEntries(sorted, hosts);
  }

  lemma SubsetEntries(a: Hosts, b: Hosts)
    requires forall h :: h in a ==> h in b
    ensures forall e :: e in EntriesOf(a) ==> e in EntriesOf(b)
  {
    forall e | e in EntriesOf(a) ensures e in EntriesOf(b) {
      var i :| 0 <= i < |a| && EntriesOf(a)[i] == e;
      assert a[i] in b;
      var j :| 0 <= j < |b| && b[j] == a[i];
      assert EntriesOf(b)[j] == e;
    }
  }

  /** With distinct names, every way to sort gives the same key. */
  lemma KeyIgnoresOrder(hosts: Hosts, sorted: Hosts)
    requires DistinctNames(hosts) && IsSorted(hosts, sorted, NameLess)
    ensures RenderAll(EntriesOf(sorted)) == Key(hosts)
  {
    var other := Sort(hosts, NameLess);
    NameOrder();
    SortSorts(hosts, NameLess);
    Rearranged(hosts, sorted);
    Rearranged(hosts, other);
    SortedHostsAreStrict(sorted);
    SortedHostsAreStrict(other);
    StrictlySortedUnique(EntriesOf(sorted), EntriesOf(other));
  }

  /** The string builder loop of `Key`. */
  method BuildString(lines: seq<string>) returns (text: string)
    ensures text == Concat(lines)
  {
    text := "";
    for i := 0 to |lines|
      invariant text == Concat(lines[..i])
    {
      ConcatAppend(lines[..i], lines[i]);
      assert lines[..i + 1] == lines[..i] + [lines[i]];
      text := text + lines[i];
    }
    assert lines[..|lines|] == lines;
  }

  method ComputeKey(hosts: Hosts) returns (key: string)
    ensures DistinctNames(hosts) ==> key == Key(hosts)
    ensures exists sorted :: IsSorted(hosts, sorted, NameLess) && key == RenderAll(EntriesOf(sorted))
  {
    if hosts == [] {
      assert IsSorted(hosts, [], NameLess);
      return "";
    }
    NameOrder();
    var sorted := SortSlice(hosts, NameLess);
    key := BuildString(Texts(EntriesOf(sorted)));
    if DistinctNames(hosts) {
      KeyIgnoresOrder(hosts, sorted);
    }
  }

  // ---------------------------------------------------------------------------------------------
  // A rendered list can be read back
  // ---------------------------------------------------------------------------------------------

  predicate PlainName(s: string) {
    ':' !in s && '|' !in s
  }

  predicate PlainNames(hosts: Hosts) {
    forall i :: 0 <= i < |hosts| ==> PlainName(hosts[i].host)
  }

  /** Two strings cut at the first occurrence of a separator. */
  lemma CutAtFirst(a: string, b: string, c: char, x: string, y: string)
    requires c !in a && c !in b && a + [c] + x == b + [c] + y
    ensures a == b && x == y
  {
    IndexOfFirst(a, c, x);
    IndexOfFirst(b, c, y);
    assert a == (a + [c] + x)[..|a|] && b == (b + [c] + y)[..|b|];
    assert x == (a + [c] + x)[|a| + 1..] && y == (b + [c] + y)[|b| + 1..];
  }

  lemma TextsArePlain(e: Entry)
    ensures ':' !in Itoa(e.port) && ':' !in AvailabilityText(e.availability) && '|' !in RoleText(e.role)
  {
    ItoaShape(e.port);
  }

  lemma RenderSplit(e: Entry, rest: string)
    ensures Render(e) + rest
         == e.host + [':'] + (Itoa(e.port) + [':'] + (AvailabilityText(e.availability) + [':']
                                                        + (RoleText(e.role) + ['|'] + rest)))
  {
  }

  lemma TextsDiffer(d: Entry, e: Entry)
    ensures AvailabilityText(d.availability) == AvailabilityText(e.availability) ==> d.availability == e.availability
    ensures RoleText(d.role) == RoleText(e.role) ==> d.role == e.role
  {
    assert |AvailabilityText(Available)| == 9 && |AvailabilityText(Unavailable)| == 11;
    assert |RoleText(Unknown)| == 7 && RoleText(Reader)[0] == 'r' && RoleText(Writer)[0] == 'w';
  }

  lemma RenderInjective(d: Entry, e: Entry, x: string, y: string)
    requires PlainName(d.host) && PlainName(e.host)
    requires Render(d) + x == Render(e) + y
    ensures d == e && x == y
  {
    TextsArePlain(d);
    TextsArePlain(e);
    RenderSplit(d, x);
    RenderSplit(e, y);
    var d3, e3 := RoleText(d.role) + ['|'] + x, RoleText(e.role) + ['|'] + y;
    var d2, e2 := AvailabilityText(d.availability) + [':'] + d3, AvailabilityText(e.availability) + [':'] + e3;
    var d1, e1 := Itoa(d.port) + [':'] + d2, Itoa(e.port) + [':'] + e2;
    CutAtFirst(d.host, e.host, ':', d1, e1);
    CutAtFirst(Itoa(d.port), Itoa(e.port), ':', d2, e2);
    CutAtFirst(AvailabilityText(d.availability), AvailabilityText(e.availability), ':', d3, e3);
    CutAtFirst(RoleText(d.role), RoleText(e.role), '|', x, y);
    ItoaInjective(d.port, e.port);
    TextsDiffer(d, e);
  }

  lemma RenderAllUnfold(es: seq<Entry>)
    requires es != []
    ensures RenderAll(es) == Render(es[0]) + RenderAll(es[1..])
    ensures RenderAll(es) != ""
  {
    assert Texts(es)[1..] == Texts(es[1..]);
    assert '|' in Render(es[0]);
  }

  lemma {:induction false} RenderAllInjective(a: seq<Entry>, b: seq<Entry>)
    requires forall e :: e in a || e in b ==> PlainName(e.host)
    requires RenderAll(a) == RenderAll(b)
    ensures a == b
  {
    if a != [] { RenderAllUnfold(a); }
    if b != [] { RenderAllUnfold(b); }
    assert RenderAll([]) == "";
    if a != [] && b != [] {
      RenderInjective(a[0], b[0], RenderAll(a[1..]), RenderAll(b[1..]));
      RenderAllInjective(a[1..], b[1..]);
      assert a == [a[0]] + a[1..] && b == [b[0]] + b[1..];
    }
  }

  ghost predicate SameEntries(a: Hosts, b: Hosts) {
    forall e :: e in EntriesOf(a) <==> e in EntriesOf(b)
  }

  /** The key is canonical: two topologies have the same key exactly when they show the same hosts, ports,
      availabilities and roles, whatever their order and weights. */
  lemma KeyIsCanonical(a: Hosts, b: Hosts)
    requires DistinctNames(a) && DistinctNames(b) && PlainNames(a) && PlainNames(b)
    ensures Key(a) == Key(b) <==> SameEntries(a, b)
  {
    var sa, sb := Sort(a, NameLess), Sort(b, NameLess);
    NameOrder();
    SortSorts(a, NameLess);
    SortSorts(b, NameLess);
    Rearranged(a, sa);
    Rearranged(b, sb);
    if SameEntries(a, b) {
      SortedHostsAreStrict(sa);
      SortedHostsAreStrict(sb);
      StrictlySortedUnique(EntriesOf(sa), EntriesOf(sb));
    }
    if Key(a) == Key(b) {
      forall e | e in EntriesOf(sa) || e in EntriesOf(sb) ensures PlainName(e.host) {
        assert e in EntriesOf(a) || e in EntriesOf(b);
      }
      RenderAllInjective(EntriesOf(sa), EntriesOf(sb));
    }
  }

  lemma RenderPrefix(b: Entry, c: Entry, p: string)
    requires c == b.(host := p + b.host)
    ensures Render(c) == p + Render(b)
  {
  }

  lemma RenderCollision(a: Entry, b: Entry, c: Entry)
    requires c == b.(host := Render(a) + b.host)
    ensures RenderAll([a, b]) == RenderAll([c])
  {
    RenderPrefix(b, c, Render(a));
    RenderAllUnfold([a, b]);
    RenderAllUnfold([b]);
    RenderAllUnfold([c]);
    assert [a, b][1..] == [b];
  }

  lemma KeyOfOne(c: HostInfo)
    ensures Key([c]) == RenderAll([EntryOf(c)])
  {
    assert [c][1..] == [];
    assert Sort([c], NameLess) == [c];
    assert EntriesOf([c]) == [EntryOf(c)];
  }

  lemma KeyOfTwo(a: HostInfo, b: HostInfo)
    requires NameLess(a, b)
    ensures Key([a, b]) == RenderAll([EntryOf(a), EntryOf(b)])
  {
    assert [a, b][1..] == [b] && [b][1..] == [];
    assert Sort([b], NameLess) == [b];
    assert Sort([a, b], NameLess) == [a, b];
    assert EntriesOf([a, b]) == [EntryOf(a), EntryOf(b)];
  }

  /** The condition on names matters: when a host is named like a rendered entry and another name behind it, a topology
      of two hosts and one of that host alone have the same key. */
  lemma KeyCollision(a: HostInfo, b: HostInfo, c: HostInfo)
    requires NameLess(a, b) && EntryOf(c) == EntryOf(b).(host := Render(EntryOf(a)) + b.host)
    ensures DistinctNames([a, b]) && DistinctNames([c])
    ensures Key([a, b]) == Key([c]) && !SameEntries([a, b], [c])
  {
    LessIrreflexive(a.host);
    KeyOfTwo(a, b);
    KeyOfOne(c);
    RenderCollision(EntryOf(a), EntryOf(b), EntryOf(c));
    assert EntriesOf([a, b])[0] == EntryOf(a) && EntriesOf([a, b])[1] == EntryOf(b);
    assert EntriesOf([c]) == [EntryOf(c)];
    assert EntryOf(a) in EntriesOf([a, b]) && EntryOf(b) in EntriesOf([a, b]);
    assert EntryOf(a).host != EntryOf(b).host;
  }
}
