/**
 * `parse_ifconfig`: the output of `ifconfig` is cut into one group per interface
 * (a line break followed by a non-blank character starts a new group), and every
 * line of a group updates a dictionary `data` that is stored under the current
 * interface name in `ret`, merged with what is already stored there.
 *
 * The function works by aliasing: `ret[iface] = data` stores the very dictionary
 * the later lines keep updating, a merged dictionary shares the `inet` list of the
 * dictionaries it was made from, and `extend` then changes that shared list.  The
 * model therefore keeps an explicit store: the dictionaries in `dicts` and the
 * `inet` lists in `lists`, both addressed by their position, with `ret` mapping an
 * interface name to the position of its dictionary.  The per-line regular
 * expressions (other than the interface name and the "UP" search) are the
 * parameters in Matchers.
 */
module Ifconfig {
  import opened Wrappers
  import opened Text
  import opened Seqs
  import opened Network

  /** An `inet` address record: `address`, and `netmask` and `broadcast` when the line has them. */
  datatype InetAddress = InetAddress(address: string, netmask: Option<string>, broadcast: Option<string>)

  /** An `inet6` address record; `parse_ifconfig` never stores one. */
  datatype Inet6Address = Inet6Address(address: string, prefixlen: Option<string>)

  /** What the mask expression captures: eight hexadecimal digits (as their value) or a dotted quad. */
  datatype MaskMatch = HexMask(value: bv32) | DottedMask(text: string)

  /**
   * The per-line matchers: the hardware address, the IPv4 address, its mask and
   * broadcast address, and whether the line carries an IPv6 address.
   */
  datatype Matchers = Matchers(mac: string -> Option<string>, ip: string -> Option<string>,
                               mask: string -> Option<MaskMatch>, bcast: string -> Option<string>,
                               inet6: string -> bool)

  /** A dictionary of interface details; `inet` is the position of its list in the store. */
  datatype IfDict = IfDict(hwaddr: Option<string>, inet: Option<nat>, inet6: Option<seq<Inet6Address>>, up: Option<bool>)

  const NoFields := IfDict(None, None, None, None)

  /**
   * The store and the loop variables: `iface`, the position `data` of the group's
   * dictionary, and `updown`.
   */
  datatype IfState = IfState(dicts: seq<IfDict>, lists: seq<seq<InetAddress>>, ret: map<string, nat>,
                             iface: string, data: nat, updown: bool)

  const Initial := IfState([], [], map[], "", 0, false)

  /** Every position stored in `ret` or in a dictionary points into the store. */
  predicate Wf(st: IfState) {
    (forall k :: k in st.ret ==> st.ret[k] < |st.dicts|)
    && (forall i :: 0 <= i < |st.dicts| && st.dicts[i].inet.Some? ==> st.dicts[i].inet.value < |st.lists|)
  }

  /** Inside a group: the store is well formed and `data` is one of its dictionaries. */
  predicate InGroup(st: IfState) {
    Wf(st) && st.data < |st.dicts|
  }

  // ---------------------------------------------------------------- groups and lines

  predicate IsBreak(s: string, i: int) {
    0 <= i && i + 1 < |s| && s[i] == '\n' && !IsSpace(s[i + 1])
  }

  /** The first line break at or after i that is followed by a non-blank character. */
  function BreakFrom(s: string, i: nat): (r: Option<nat>)
    requires i <= |s|
    ensures r.Some? ==> i <= r.value && IsBreak(s, r.value) && forall j :: i <= j < r.value ==> !IsBreak(s, j)
    ensures r.None? ==> forall j :: i <= j ==> !IsBreak(s, j)
    decreases |s| - i
  {
    if i + 1 >= |s| then None
    else if IsBreak(s, i) then Some(i)
    else BreakFrom(s, i + 1)
  }

  /** `re.compile('\r?\n(?=\\S)').split(s)`: a "\r" just before the break goes with it. */
  function Groups(s: string): (groups: seq<string>)
    ensures |groups| >= 1
    decreases |s|
  {
    match BreakFrom(s, 0)
    case None => [s]
    case Some(i) =>
      var head := if i > 0 && s[i - 1] == '\r' then s[..i - 1] else s[..i];
      [head] + Groups(s[i + 1..])
  }

  /** The length of the run of characters other than whitespace and ':' that starts s. */
  function NameLength(s: string): (n: nat)
    ensures n <= |s|
    ensures forall i :: 0 <= i < n ==> !IsSpace(s[i]) && s[i] != ':'
    ensures n < |s| ==> IsSpace(s[n]) || s[n] == ':'
  {
    if s == [] || IsSpace(s[0]) || s[0] == ':' then 0 else 1 + NameLength(s[1..])
  }

  /** The interface name at the start of a line (`^([^\s:]+)`), if the line starts with one. */
  function IfaceName(line: string): (name: Option<string>)
    ensures name.Some? <==> line != [] && !IsSpace(line[0]) && line[0] != ':'
    ensures name.Some? ==> name.value != [] && |name.value| <= |line| && line[..|name.value|] == name.value
  {
    var n := NameLength(line);
    if n == 0 then None else Some(line[..n])
  }

  /** The line contains "UP" (`re.compile('UP').search(line)`). */
  function HasUp(line: string): (b: bool)
    ensures b <==> exists i :: 0 <= i && i + 1 < |line| && line[i] == 'U' && line[i + 1] == 'P'
    decreases |line|
  {
    if |line| < 2 then false
    else if line[0] == 'U' && line[1] == 'P' then true
    else
      var b := HasUp(line[1..]);
      assert forall i :: 1 <= i && i + 1 < |line| ==> line[i] == line[1..][i - 1] && line[i + 1] == line[1..][i];
      assert b ==> exists i :: 0 <= i && i + 1 < |line[1..]| && line[1..][i] == 'U' && line[1..][i + 1] == 'P';
      b
  }

  // ---------------------------------------------------------------- one line

  /** The netmask text: the hexadecimal mask turned into a dotted quad, or the dotted quad itself. */
  function NetmaskOf(mm: Option<MaskMatch>): Option<string> {
    match mm
    case None => None
    case Some(HexMask(v)) => Some(CidrNetmask(Number(PopCount(v))))
    case Some(DottedMask(t)) => Some(t)
  }

  /** The address record of an `inet` line. */
  function AddressOf(m: Matchers, line: string, address: string): InetAddress {
    InetAddress(address, NetmaskOf(m.mask(line)), m.bcast(line))
  }

  /** `iface = miface.group(1)` when the line starts with an interface name. */
  function NameStep(st: IfState, line: string): IfState {
    if IfaceName(line).Some? then st.(iface := IfaceName(line).value) else st
  }

  /** `data['hwaddr'] = mmac.group(1)` when the line has a hardware address. */
  function MacStep(m: Matchers, st: IfState, line: string): (r: IfState)
    requires InGroup(st)
    ensures InGroup(r)
  {
    if m.mac(line).Some? then st.(dicts := st.dicts[st.data := st.dicts[st.data].(hwaddr := m.mac(line))]) else st
  }

  /** An `inet` line: the group's list is made if it is missing, and the address record is appended to it. */
  function InetStep(m: Matchers, st: IfState, line: string): (r: IfState)
    requires InGroup(st)
    ensures InGroup(r)
  {
    if m.ip(line).None? then st
    else
      var s := if st.dicts[st.data].inet.None? then
          st.(lists := st.lists + [[]], dicts := st.dicts[st.data := st.dicts[st.data].(inet := Some(|st.lists|))])
        else st;
      var id := s.dicts[s.data].inet.value;
      s.(lists := s.lists[id := s.lists[id] + [AddressOf(m, line, m.ip(line).value)]])
  }

  /** An `inet6` line: the group's `inet6` list is made if it is missing (and nothing is put in it). */
  function Inet6Step(m: Matchers, st: IfState, line: string): (r: IfState)
    requires InGroup(st)
    ensures InGroup(r)
  {
    if m.inet6(line) && st.dicts[st.data].inet6.None? then
      st.(dicts := st.dicts[st.data := st.dicts[st.data].(inet6 := Some([]))])
    else st
  }

  /**
   * The updates of one line to `iface`, to the group's dictionary and to `updown`:
   * the interface name, `hwaddr`, an `inet` record, an empty `inet6` list, and "UP".
   */
  function LineFields(m: Matchers, st: IfState, line: string): (r: IfState)
    requires InGroup(st)
    ensures InGroup(r)
  {
    var s := Inet6Step(m, InetStep(m, MacStep(m, NameStep(st, line), line), line), line);
    s.(updown := s.updown || HasUp(line))
  }

  /** `data['up'] = updown`. */
  function SetUp(st: IfState): (r: IfState)
    requires InGroup(st)
    ensures InGroup(r)
  {
    st.(dicts := st.dicts[st.data := st.dicts[st.data].(up := Some(st.updown))])
  }

  /** The stored field when there is one, else the new one. */
  function Older<T>(stored: Option<T>, parsed: Option<T>): Option<T> {
    if stored.Some? then stored else parsed
  }

  /**
   * Storing `data` under `iface`: the dictionary itself the first time, otherwise a
   * new dictionary whose stored fields win over those of `data`, whose `inet`
   * list gets the records of `data` it lacks, and likewise its `inet6` list.
   */
  function Merge(st: IfState): (r: IfState)
    requires InGroup(st)
    ensures InGroup(r)
  {
    if st.iface in st.ret then
      var prev, d := st.dicts[st.ret[st.iface]], st.dicts[st.data];
      var merged := IfDict(Older(prev.hwaddr, d.hwaddr), Older(prev.inet, d.inet), Older(prev.inet6, d.inet6), Older(prev.up, d.up));
      var lists :=
        if d.inet.Some? then st.lists[merged.inet.value := AppendMissing(st.lists[merged.inet.value], st.lists[d.inet.value])]
        else st.lists;
      var merged' := if d.inet6.Some? then merged.(inet6 := Some(AppendMissing(merged.inet6.value, d.inet6.value))) else merged;
      st.(dicts := st.dicts + [merged'], lists := lists, ret := st.ret[st.iface := |st.dicts|])
    else
      st.(ret := st.ret[st.iface := st.data])
  }

  /** One iteration of the line loop. */
  function IfLine(m: Matchers, st: IfState, line: string): (r: IfState)
    requires InGroup(st)
    ensures InGroup(r)
  {
    Merge(SetUp(LineFields(m, st, line)))
  }

  /** The line loop of one group. */
  function GroupLines(m: Matchers, st: IfState, lines: seq<string>): (r: IfState)
    requires InGroup(st)
    ensures InGroup(r)
    decreases |lines|
  {
    if lines == [] then st else IfLine(m, GroupLines(m, st, lines[..|lines| - 1]), lines[|lines| - 1])
  }

  /** `iface = ''`, `data = dict()`, `updown = False`. */
  function StartGroup(st: IfState): (r: IfState)
    requires Wf(st)
    ensures InGroup(r)
  {
    st.(dicts := st.dicts + [NoFields], iface := "", data := |st.dicts|, updown := false)
  }

  /** The group loop. */
  function IfGroups(m: Matchers, st: IfState, groups: seq<string>): (r: IfState)
    requires Wf(st)
    ensures Wf(r)
    decreases |groups|
  {
    if groups == [] then st
    else GroupLines(m, StartGroup(IfGroups(m, st, groups[..|groups| - 1])), SplitLines(groups[|groups| - 1]))
  }

  /** The details of one interface as `parse_ifconfig` returns them. */
  datatype IfaceFacts = IfaceFacts(hwaddr: Option<string>, inet: Option<seq<InetAddress>>,
                                   inet6: Option<seq<Inet6Address>>, up: Option<bool>)

  function FactsOf(st: IfState, d: IfDict): IfaceFacts
    requires d.inet.Some? ==> d.inet.value < |st.lists|
  {
    IfaceFacts(d.hwaddr, if d.inet.Some? then Some(st.lists[d.inet.value]) else None, d.inet6, d.up)
  }

  /** The dictionary the store holds for each interface name. */
  function View(st: IfState): map<string, IfaceFacts>
    requires Wf(st)
  {
    map k | k in st.ret :: FactsOf(st, st.dicts[st.ret[k]])
  }

  /** What `parse_ifconfig` returns. */
  function IfconfigFacts(m: Matchers, output: string): map<string, IfaceFacts> {
    View(IfGroups(m, Initial, Groups(output)))
  }

  // ---------------------------------------------------------------- the loops

  method ParseIfconfig(m: Matchers, output: string) returns (facts: map<string, IfaceFacts>)
    ensures facts == IfconfigFacts(m, output)
  {
    var dicts: seq<IfDict> := [];
    var lists: seq<seq<InetAddress>> := [];
    var ret: map<string, nat> := map[];
    var iface, data: nat, updown := "", 0, false;
    var groups := Groups(output);
    for g := 0 to |groups|
      invariant IfGroups(m, Initial, groups[..g]) == IfState(dicts, lists, ret, iface, data, updown)
    {
      IfGroupsStep(m, Initial, groups, g);
      dicts, lists, ret, iface, data, updown := ParseGroup(m, dicts, lists, ret, iface, data, updown, groups[g]);
    }
    assert groups[..|groups|] == groups;
    facts := View(IfState(dicts, lists, ret, iface, data, updown));
  }

  lemma IfGroupsStep(m: Matchers, st: IfState, groups: seq<string>, g: nat)
    requires Wf(st) && g < |groups|
    ensures IfGroups(m, st, groups[..g + 1])
      == GroupLines(m, StartGroup(IfGroups(m, st, groups[..g])), SplitLines(groups[g]))
  {
    assert groups[..g + 1][..g] == groups[..g];
  }

  lemma GroupLinesStep(m: Matchers, st: IfState, lines: seq<string>, j: nat)
    requires InGroup(st) && j < |lines|
    ensures GroupLines(m, st, lines[..j + 1]) == IfLine(m, GroupLines(m, st, lines[..j]), lines[j])
  {
    assert lines[..j + 1][..j] == lines[..j];
  }

  /** One group: a fresh `iface`, `data` and `updown`, then the line loop. */
  method ParseGroup(m: Matchers, dicts0: seq<IfDict>, lists0: seq<seq<InetAddress>>, ret0: map<string, nat>,
                    iface0: string, data0: nat, updown0: bool, group: string)
    returns (dicts: seq<IfDict>, lists: seq<seq<InetAddress>>, ret: map<string, nat>, iface: string, data: nat, updown: bool)
    requires Wf(IfState(dicts0, lists0, ret0, iface0, data0, updown0))
    ensures IfState(dicts, lists, ret, iface, data, updown)
      == GroupLines(m, StartGroup(IfState(dicts0, lists0, ret0, iface0, data0, updown0)), SplitLines(group))
  {
    iface := "";
    dicts := dicts0 + [NoFields];
    data := |dicts| - 1;
    updown := false;
    lists, ret := lists0, ret0;
    ghost var start := IfState(dicts, lists, ret, iface, data, updown);
    assert start == StartGroup(IfState(dicts0, lists0, ret0, iface0, data0, updown0));
    var lines := SplitLines(group);
    for j := 0 to |lines|
      invariant IfState(dicts, lists, ret, iface, data, updown) == GroupLines(m, start, lines[..j])
    {
      GroupLinesStep(m, start, lines, j);
      dicts, lists, iface, updown := LineUpdate(m, dicts, lists, ret, iface, data, updown, lines[j]);
      dicts, lists, ret := MergeData(dicts, lists, ret, iface, data, updown);
    }
    assert lines[..|lines|] == lines;
  }

  /** The body of the line loop up to `data['up'] = updown`. */
  method LineUpdate(m: Matchers, dicts0: seq<IfDict>, lists0: seq<seq<InetAddress>>, ret: map<string, nat>,
                    iface0: string, data: nat, updown0: bool, line: string)
    returns (dicts: seq<IfDict>, lists: seq<seq<InetAddress>>, iface: string, updown: bool)
    requires InGroup(IfState(dicts0, lists0, ret, iface0, data, updown0))
    ensures IfState(dicts, lists, ret, iface, data, updown)
      == SetUp(LineFields(m, IfState(dicts0, lists0, ret, iface0, data, updown0), line))
  {
    dicts, lists, iface, updown := dicts0, lists0, iface0, updown0;
    ghost var st0 := IfState(dicts0, lists0, ret, iface0, data, updown0);
    var name := IfaceName(line);
    if name.Some? {
      iface := name.value;
    }
    ghost var st1 := NameStep(st0, line);
    assert IfState(dicts, lists, ret, iface, data, updown) == st1;
    var mac := m.mac(line);
    if mac.Some? {
      dicts := dicts[data := dicts[data].(hwaddr := mac)];
    }
    ghost var st2 := MacStep(m, st1, line);
    assert IfState(dicts, lists, ret, iface, data, updown) == st2;
    dicts, lists := AddInet(m, dicts, lists, ret, iface, data, updown, line);
    ghost var st3 := InetStep(m, st2, line);
    assert IfState(dicts, lists, ret, iface, data, updown) == st3;
    if m.inet6(line) {
      if dicts[data].inet6.None? {
        dicts := dicts[data := dicts[data].(inet6 := Some([]))];
      }
    }
    assert IfState(dicts, lists, ret, iface, data, updown) == Inet6Step(m, st3, line);
    if HasUp(line) {
      updown := true;
    }
    dicts := dicts[data := dicts[data].(up := Some(updown))];
  }

  /** The `inet` part of the line loop. */
  method AddInet(m: Matchers, dicts0: seq<IfDict>, lists0: seq<seq<InetAddress>>, ret: map<string, nat>,
                 iface: string, data: nat, updown: bool, line: string)
    returns (dicts: seq<IfDict>, lists: seq<seq<InetAddress>>)
    requires InGroup(IfState(dicts0, lists0, ret, iface, data, updown))
    ensures IfState(dicts, lists, ret, iface, data, updown) == InetStep(m, IfState(dicts0, lists0, ret, iface, data, updown), line)
  {
    dicts, lists := dicts0, lists0;
    var ip := m.ip(line);
    if ip.None? {
      return;
    }
    if dicts[data].inet.None? {
      lists := lists + [[]];
      dicts := dicts[data := dicts[data].(inet := Some(|lists| - 1))];
    }
    var address := InetAddress(ip.value, None, None);
    var mask := m.mask(line);
    if mask.Some? {
      var netmask;
      if mask.value.HexMask? {
        netmask := NumberOfSetBitsToIpv4Netmask(mask.value.value);
      } else {
        netmask := mask.value.text;
      }
      address := address.(netmask := Some(netmask));
    }
    var bcast := m.bcast(line);
    if bcast.Some? {
      address := address.(broadcast := bcast);
    }
    var id := dicts[data].inet.value;
    lists := lists[id := lists[id] + [address]];
  }

  /** The end of the line loop: storing or merging `data` under `iface`. */
  method MergeData(dicts0: seq<IfDict>, lists0: seq<seq<InetAddress>>, ret0: map<string, nat>,
                   iface: string, data: nat, updown: bool)
    returns (dicts: seq<IfDict>, lists: seq<seq<InetAddress>>, ret: map<string, nat>)
    requires InGroup(IfState(dicts0, lists0, ret0, iface, data, updown))
    ensures IfState(dicts, lists, ret, iface, data, updown) == Merge(IfState(dicts0, lists0, ret0, iface, data, updown))
  {
    dicts, lists, ret := dicts0, lists0, ret0;
    if iface in ret {
      var prev, d := dicts[ret[iface]], dicts[data];
      var merged := IfDict(Older(prev.hwaddr, d.hwaddr), Older(prev.inet, d.inet), Older(prev.inet6, d.inet6), Older(prev.up, d.up));
      dicts := dicts + [merged];
      ret := ret[iface := |dicts| - 1];
      if d.inet.Some? {
        var target := merged.inet.value;
        var extended := ExtendMissing(lists[target], lists[d.inet.value]);
        lists := lists[target := extended];
      }
      if d.inet6.Some? {
        var extended := ExtendMissing(merged.inet6.value, d.inet6.value);
        dicts := dicts[|dicts| - 1 := merged.(inet6 := Some(extended))];
      }
    } else {
      ret := ret[iface := data];
    }
  }

  // ---------------------------------------------------------------- the merge rule

  /** The `inet` list a dictionary holds, or none. */
  function InetOf(st: IfState, d: IfDict): seq<InetAddress>
    requires d.inet.Some? ==> d.inet.value < |st.lists|
  {
    if d.inet.Some? then st.lists[d.inet.value] else []
  }

  /**
   * When the interface is already stored, the fields stored before win over those
   * of `data`, and the stored `inet` list gains exactly the records of `data` it
   * lacks: it keeps its records first and in order, holds each record of either
   * list, and stays free of repetitions if it was.  Every other interface keeps
   * its slot and its dictionary, and every other list is unchanged; an interface
   * whose dictionary shares the stored `inet` list sees the added records too.
   */
  lemma MergeOlderWins(st: IfState)
    requires InGroup(st) && st.iface in st.ret
    ensures var prev, d, r := st.dicts[st.ret[st.iface]], st.dicts[st.data], Merge(st);
      var now := r.dicts[r.ret[st.iface]];
      (now.hwaddr == if prev.hwaddr.Some? then prev.hwaddr else d.hwaddr)
      && (now.up == if prev.up.Some? then prev.up else d.up)
      && (now.inet.Some? <==> prev.inet.Some? || d.inet.Some?)
      && (prev.inet.Some? ==> now.inet == prev.inet)
      && (var before, added, after := InetOf(st, prev), InetOf(st, d), InetOf(r, now);
          |before| <= |after| && after[..|before|] == before
          && (forall x :: x in after <==> x in before || x in added)
          && (prev.inet.Some? && NoDup(before) ==> NoDup(after))
          && (prev.inet.None? ==> after == added))
      && r.ret.Keys == st.ret.Keys
      && (forall k :: k in st.ret && k != st.iface ==> r.ret[k] == st.ret[k] && r.dicts[r.ret[k]] == st.dicts[st.ret[k]])
      && |r.lists| == |st.lists|
      && (forall j :: 0 <= j < |st.lists| && (d.inet.None? || j != now.inet.value) ==> r.lists[j] == st.lists[j])
  {
    var prev, d, r := st.dicts[st.ret[st.iface]], st.dicts[st.data], Merge(st);
    var now := r.dicts[r.ret[st.iface]];
    var before, added := InetOf(st, prev), InetOf(st, d);
    if d.inet.Some? {
      if prev.inet.Some? {
        if NoDup(before) {
          AppendMissingNoDup(before, added);
        }
      } else {
        AppendPresent(added, added);
      }
    }
  }

  // ---------------------------------------------------------------- invariants

  /** No `inet6` list holds anything. */
  predicate Inet6Empty(st: IfState) {
    forall i :: 0 <= i < |st.dicts| && st.dicts[i].inet6.Some? ==> st.dicts[i].inet6.value == []
  }

  /** Every stored interface has its `up` field. */
  predicate UpStored(st: IfState)
    requires Wf(st)
  {
    forall k :: k in st.ret ==> st.dicts[st.ret[k]].up.Some?
  }

  /** b has the entries and `up` fields of a. */
  predicate SameEntries(a: IfState, b: IfState) {
    a.ret == b.ret && a.data == b.data && |a.dicts| == |b.dicts|
    && forall i :: 0 <= i < |a.dicts| ==> b.dicts[i].up == a.dicts[i].up
  }

  lemma MacStepKeeps(m: Matchers, st: IfState, line: string)
    requires InGroup(st) && Inet6Empty(st)
    ensures Inet6Empty(MacStep(m, st, line)) && SameEntries(st, MacStep(m, st, line))
  {
  }

  lemma InetStepKeeps(m: Matchers, st: IfState, line: string)
    requires InGroup(st) && Inet6Empty(st)
    ensures Inet6Empty(InetStep(m, st, line)) && SameEntries(st, InetStep(m, st, line))
  {
  }

  lemma Inet6StepKeeps(m: Matchers, st: IfState, line: string)
    requires InGroup(st) && Inet6Empty(st)
    ensures Inet6Empty(Inet6Step(m, st, line)) && SameEntries(st, Inet6Step(m, st, line))
  {
  }

  lemma LineFieldsKeeps(m: Matchers, st: IfState, line: string)
    requires InGroup(st) && Inet6Empty(st)
    ensures Inet6Empty(LineFields(m, st, line)) && SameEntries(st, LineFields(m, st, line))
  {
    var s1 := NameStep(st, line);
    MacStepKeeps(m, s1, line);
    var s2 := MacStep(m, s1, line);
    InetStepKeeps(m, s2, line);
    var s3 := InetStep(m, s2, line);
    Inet6StepKeeps(m, s3, line);
  }

  lemma MergeKeeps(st: IfState)
    requires InGroup(st) && Inet6Empty(st) && st.dicts[st.data].up.Some?
    requires forall k :: k in st.ret ==> st.dicts[st.ret[k]].up.Some?
    ensures Inet6Empty(Merge(st)) && UpStored(Merge(st))
  {
    if st.iface in st.ret {
      var d := st.dicts[st.data];
      if d.inet6.Some? {
        var prev := st.dicts[st.ret[st.iface]];
        assert AppendMissing(Older(prev.inet6, d.inet6).value, d.inet6.value) == Older(prev.inet6, d.inet6).value;
      }
    }
  }

  /** One line keeps every `inet6` list empty and every stored `up` field present. */
  lemma IfLineKeeps(m: Matchers, st: IfState, line: string)
    requires InGroup(st) && Inet6Empty(st) && UpStored(st)
    ensures Inet6Empty(IfLine(m, st, line)) && UpStored(IfLine(m, st, line))
  {
    LineFieldsKeeps(m, st, line);
    MergeKeeps(SetUp(LineFields(m, st, line)));
  }

  lemma {:induction false} GroupLinesKeep(m: Matchers, st: IfState, lines: seq<string>)
    requires InGroup(st) && Inet6Empty(st) && UpStored(st)
    ensures Inet6Empty(GroupLines(m, st, lines)) && UpStored(GroupLines(m, st, lines))
    decreases |lines|
  {
    if lines != [] {
      GroupLinesKeep(m, st, lines[..|lines| - 1]);
      IfLineKeeps(m, GroupLines(m, st, lines[..|lines| - 1]), lines[|lines| - 1]);
    }
  }

  lemma {:induction false} IfGroupsKeep(m: Matchers, st: IfState, groups: seq<string>)
    requires Wf(st) && Inet6Empty(st) && UpStored(st)
    ensures Inet6Empty(IfGroups(m, st, groups)) && UpStored(IfGroups(m, st, groups))
    decreases |groups|
  {
    if groups != [] {
      IfGroupsKeep(m, st, groups[..|groups| - 1]);
      var s := StartGroup(IfGroups(m, st, groups[..|groups| - 1]));
      GroupLinesKeep(m, s, SplitLines(groups[|groups| - 1]));
    }
  }

  /**
   * Every interface in the result has its `up` flag, and its `inet6` list, when
   * it has one, is empty: nothing is ever appended to `data['inet6']`.
   */
  lemma IfconfigShape(m: Matchers, output: string)
    ensures forall k :: k in IfconfigFacts(m, output) ==>
      IfconfigFacts(m, output)[k].up.Some?
      && (IfconfigFacts(m, output)[k].inet6.Some? ==> IfconfigFacts(m, output)[k].inet6.value == [])
  {
    IfGroupsKeep(m, Initial, Groups(output));
  }

  // ---------------------------------------------------------------- interface names

  lemma IfLineKeys(m: Matchers, st: IfState, line: string)
    requires InGroup(st)
    ensures var r := IfLine(m, st, line);
      r.iface == NameStep(st, line).iface && r.ret.Keys == st.ret.Keys + {r.iface}
  {
    LineFieldsNames(m, st, line);
  }

  lemma LineFieldsNames(m: Matchers, st: IfState, line: string)
    requires InGroup(st)
    ensures LineFields(m, st, line).ret == st.ret && LineFields(m, st, line).iface == NameStep(st, line).iface
  {
    var s1 := NameStep(st, line);
    var s2 := MacStep(m, s1, line);
    var s3 := InetStep(m, s2, line);
    assert SameNames(s2, s1);
    InetKeepsNames(m, s2, line);
    Inet6KeepsNames(m, s3, line);
  }

  /** The store tells the same interface names, and the current one is the same. */
  predicate SameNames(a: IfState, b: IfState) {
    a.ret == b.ret && a.iface == b.iface
  }

  lemma InetKeepsNames(m: Matchers, st: IfState, line: string)
    requires InGroup(st)
    ensures SameNames(InetStep(m, st, line), st)
  {
  }

  lemma Inet6KeepsNames(m: Matchers, st: IfState, line: string)
    requires InGroup(st)
    ensures SameNames(Inet6Step(m, st, line), st)
  {
  }

  /** The line names interface k. */
  predicate Names(line: string, k: string) {
    IfaceName(line) == Some(k)
  }

  /** Some line of the group names interface k. */
  predicate NamedBy(lines: seq<string>, k: string) {
    exists i :: 0 <= i < |lines| && Names(lines[i], k)
  }

  lemma NamedBySnoc(lines: seq<string>, k: string)
    requires lines != []
    ensures NamedBy(lines, k) <==> NamedBy(lines[..|lines| - 1], k) || Names(lines[|lines| - 1], k)
  {
    var init := lines[..|lines| - 1];
    if NamedBy(lines, k) {
      var i :| 0 <= i < |lines| && Names(lines[i], k);
      if i < |init| {
        assert init[i] == lines[i];
      }
    }
    if NamedBy(init, k) {
      var i :| 0 <= i < |init| && Names(init[i], k);
      assert lines[i] == init[i];
    }
  }

  lemma {:induction false} GroupKeys(m: Matchers, st: IfState, lines: seq<string>)
    requires InGroup(st)
    ensures var r := GroupLines(m, st, lines);
      st.ret.Keys <= r.ret.Keys
      && (forall k :: NamedBy(lines, k) ==> k in r.ret)
      && (forall k :: k in r.ret ==> k in st.ret || k == st.iface || NamedBy(lines, k))
      && (r.iface == st.iface || NamedBy(lines, r.iface))
    decreases |lines|
  {
    if lines != [] {
      var init, last := lines[..|lines| - 1], lines[|lines| - 1];
      GroupKeys(m, st, init);
      var s := GroupLines(m, st, init);
      var r := GroupLines(m, st, lines);
      assert r == IfLine(m, s, last);
      IfLineKeys(m, s, last);
      assert r.iface == NameStep(s, last).iface;
      assert r.ret.Keys == s.ret.Keys + {r.iface};
      forall k | NamedBy(lines, k)
        ensures k in r.ret
      {
        NamedBySnoc(lines, k);
      }
      forall k | k in r.ret
        ensures k in st.ret || k == st.iface || NamedBy(lines, k)
      {
        NamedBySnoc(lines, k);
      }
      NamedBySnoc(lines, r.iface);
      if IfaceName(last).None? {
        assert r.iface == s.iface;
      }
    }
  }

  /** Some line of some group names interface k. */
  predicate NamedIn(groups: seq<string>, k: string) {
    exists g :: 0 <= g < |groups| && NamedBy(SplitLines(groups[g]), k)
  }

  lemma NamedInSnoc(groups: seq<string>, k: string)
    requires groups != []
    ensures NamedIn(groups, k) <==> NamedIn(groups[..|groups| - 1], k) || NamedBy(SplitLines(groups[|groups| - 1]), k)
  {
    var init := groups[..|groups| - 1];
    if NamedIn(groups, k) {
      var g :| 0 <= g < |groups| && NamedBy(SplitLines(groups[g]), k);
      if g < |init| {
        assert init[g] == groups[g];
      }
    }
    if NamedIn(init, k) {
      var g :| 0 <= g < |init| && NamedBy(SplitLines(init[g]), k);
      assert groups[g] == init[g];
    }
  }

  lemma {:induction false} IfGroupsKeys(m: Matchers, st: IfState, groups: seq<string>)
    requires Wf(st)
    ensures var r := IfGroups(m, st, groups);
      st.ret.Keys <= r.ret.Keys
      && (forall k :: NamedIn(groups, k) ==> k in r.ret)
      && (forall k :: k in r.ret ==> k in st.ret || k == "" || NamedIn(groups, k))
    decreases |groups|
  {
    if groups != [] {
      var init, last := groups[..|groups| - 1], groups[|groups| - 1];
      IfGroupsKeys(m, st, init);
      var s := StartGroup(IfGroups(m, st, init));
      var lines := SplitLines(last);
      GroupKeys(m, s, lines);
      var r := IfGroups(m, st, groups);
      assert r == GroupLines(m, s, lines);
      assert s.ret == IfGroups(m, st, init).ret && s.iface == "";
      forall k | NamedIn(groups, k)
        ensures k in r.ret
      {
        NamedInSnoc(groups, k);
      }
      forall k | k in r.ret
        ensures k in st.ret || k == "" || NamedIn(groups, k)
      {
        NamedInSnoc(groups, k);
      }
    }
  }

  /**
   * The interfaces in the result are exactly the names that start lines of the
   * output, and possibly "" (for lines met before any name in their group).
   */
  lemma IfconfigKeys(m: Matchers, output: string, k: string)
    ensures NamedIn(Groups(output), k) ==> k in IfconfigFacts(m, output)
    ensures k in IfconfigFacts(m, output) ==> k == "" || NamedIn(Groups(output), k)
  {
    IfGroupsKeys(m, Initial, Groups(output));
  }

  // ---------------------------------------------------------------- the "up" flag as written

  /** b differs from a at most in the dictionary `data` (and in the store of lists). */
  predicate DataOnly(a: IfState, b: IfState) {
    b.ret == a.ret && b.data == a.data && b.iface == a.iface && b.updown == a.updown && |b.dicts| == |a.dicts|
    && forall i :: 0 <= i < |a.dicts| && i != a.data ==> b.dicts[i] == a.dicts[i]
  }

  lemma MacStepFrame(m: Matchers, st: IfState, line: string)
    requires InGroup(st)
    ensures DataOnly(st, MacStep(m, st, line))
  {
  }

  lemma InetStepFrame(m: Matchers, st: IfState, line: string)
    requires InGroup(st)
    ensures DataOnly(st, InetStep(m, st, line))
  {
  }

  lemma Inet6StepFrame(m: Matchers, st: IfState, line: string)
    requires InGroup(st)
    ensures DataOnly(st, Inet6Step(m, st, line))
  {
  }

  /** What one line changes: the group's dictionary, `iface` and `updown`, and nothing else. */
  lemma LineFieldsFrame(m: Matchers, st: IfState, line: string)
    requires InGroup(st)
    ensures var r := LineFields(m, st, line);
      r.ret == st.ret && r.data == st.data && r.iface == NameStep(st, line).iface
      && r.updown == (st.updown || HasUp(line)) && |r.dicts| == |st.dicts|
      && forall i :: 0 <= i < |st.dicts| && i != st.data ==> r.dicts[i] == st.dicts[i]
  {
    var s1 := NameStep(st, line);
    MacStepFrame(m, s1, line);
    var s2 := MacStep(m, s1, line);
    InetStepFrame(m, s2, line);
    var s3 := InetStep(m, s2, line);
    Inet6StepFrame(m, s3, line);
  }

  /**
   * After the second line of a group: the interface k is stored in a dictionary
   * other than `data`, and its `up` field is b.
   */
  predicate Frozen(st: IfState, k: string, b: bool) {
    InGroup(st) && st.iface == k && k in st.ret && st.ret[k] != st.data && st.dicts[st.ret[k]].up == Some(b)
  }

  /** A line that names no interface leaves the stored `up` field as it is. */
  lemma FrozenStep(m: Matchers, st: IfState, line: string, k: string, b: bool)
    requires Frozen(st, k, b) && IfaceName(line).None?
    ensures Frozen(IfLine(m, st, line), k, b)
  {
    LineFieldsFrame(m, st, line);
  }

  /** The first line of a group that starts with a new interface name k stores `data` itself under k. */
  lemma FirstLine(m: Matchers, st: IfState, l0: string, k: string)
    requires Wf(st) && Names(l0, k) && k !in st.ret
    ensures var s1 := IfLine(m, StartGroup(st), l0);
      s1.iface == k && k in s1.ret && s1.ret[k] == s1.data && s1.updown == HasUp(l0)
  {
    LineFieldsFrame(m, StartGroup(st), l0);
  }

  /** The second line merges `data` with itself into a new dictionary. */
  lemma SecondLine(m: Matchers, s1: IfState, l1: string, k: string)
    requires InGroup(s1) && s1.iface == k && k in s1.ret && s1.ret[k] == s1.data && IfaceName(l1).None?
    ensures Frozen(IfLine(m, s1, l1), k, s1.updown || HasUp(l1))
  {
    LineFieldsFrame(m, s1, l1);
    var t := SetUp(LineFields(m, s1, l1));
    assert t.ret[k] == t.data && t.iface == k;
    assert t.dicts[t.data].up == Some(s1.updown || HasUp(l1));
  }

  /** The first two lines of a group that starts with a new interface name k. */
  lemma FirstTwoLines(m: Matchers, st: IfState, l0: string, l1: string, k: string)
    requires Wf(st) && Names(l0, k) && k !in st.ret && IfaceName(l1).None?
    ensures Frozen(GroupLines(m, StartGroup(st), [l0, l1]), k, HasUp(l0) || HasUp(l1))
  {
    var s0 := StartGroup(st);
    FirstLine(m, st, l0, k);
    var s1 := IfLine(m, s0, l0);
    assert [l0, l1][..1] == [l0];
    assert GroupLines(m, s0, [l0]) == s1;
    SecondLine(m, s1, l1, k);
  }

  /**
   * As written, the stored `up` flag of an interface whose group is its first
   * appearance is decided by the group's first two lines alone: the merge at the
   * end of the second line copies `data` into a new dictionary, and every later
   * merge keeps that copy's `up` field.
   */
  lemma {:induction false} UpFromFirstTwoLines(m: Matchers, st: IfState, lines: seq<string>, k: string)
    requires Wf(st) && |lines| >= 2 && Names(lines[0], k) && k !in st.ret
    requires forall i :: 1 <= i < |lines| ==> IfaceName(lines[i]).None?
    ensures Frozen(GroupLines(m, StartGroup(st), lines), k, HasUp(lines[0]) || HasUp(lines[1]))
    decreases |lines|
  {
    if |lines| == 2 {
      FirstTwoLines(m, st, lines[0], lines[1], k);
      assert lines == [lines[0], lines[1]];
    } else {
      var init := lines[..|lines| - 1];
      UpFromFirstTwoLines(m, st, init, k);
      FrozenStep(m, GroupLines(m, StartGroup(st), init), lines[|lines| - 1], k, HasUp(lines[0]) || HasUp(lines[1]));
    }
  }

  const UpOnThirdLine := "e\n \n UP"

  lemma UpOnThirdLineParts()
    ensures Groups(UpOnThirdLine) == [UpOnThirdLine]
    ensures SplitLines(UpOnThirdLine) == ["e", " ", " UP"]
  {
    UpOnThirdLineGroups();
    UpOnThirdLineSplit();
  }

  lemma UpOnThirdLineGroups()
    ensures Groups(UpOnThirdLine) == [UpOnThirdLine]
  {
    var s := UpOnThirdLine;
    assert !IsBreak(s, 1) && !IsBreak(s, 3);
    assert BreakFrom(s, 5) == None;
    assert BreakFrom(s, 4) == None;
    assert BreakFrom(s, 3) == None;
    assert BreakFrom(s, 2) == None;
    assert BreakFrom(s, 1) == None;
    assert BreakFrom(s, 0) == None;
  }

  lemma UpOnThirdLineSplit()
    ensures SplitLines(UpOnThirdLine) == ["e", " ", " UP"]
  {
    assert UpOnThirdLine == "e" + ['\n'] + (" " + ['\n'] + " UP");
    assert NoBreak("e") && NoBreak(" ") && NoBreak(" UP");
    ThreeLines("e", " ", " UP");
  }

  /** Three lines joined by "\n" split back into those three. */
  lemma ThreeLines(a: string, b: string, c: string)
    requires NoBreak(a) && NoBreak(b) && NoBreak(c) && c != []
    ensures SplitLines(a + ['\n'] + (b + ['\n'] + c)) == [a, b, c]
  {
    SplitLinesCons(a, b + ['\n'] + c);
    SplitLinesCons(b, c);
    SplitLinesOne(c);
  }

  /**
   * For the output "e\n \n UP", with any matchers, interface "e" is reported as
   * not up although the line " UP" of its group says it is.
   */
  lemma UpOnThirdLineLost(m: Matchers)
    ensures HasUp(" UP")
    ensures "e" in IfconfigFacts(m, UpOnThirdLine) && IfconfigFacts(m, UpOnThirdLine)["e"].up == Some(false)
  {
    UpOnThirdLineParts();
    UpOnThirdLineLines(SplitLines(UpOnThirdLine));
    GroupUpLost(m, UpOnThirdLine);
  }

  lemma GroupUpLost(m: Matchers, output: string)
    requires Groups(output) == [output]
    requires var lines := SplitLines(output);
      |lines| == 3 && Names(lines[0], "e") && IfaceName(lines[1]).None? && IfaceName(lines[2]).None?
      && !HasUp(lines[0]) && !HasUp(lines[1])
    ensures "e" in IfconfigFacts(m, output) && IfconfigFacts(m, output)["e"].up == Some(false)
  {
    SingleGroup(m, output);
    var lines := SplitLines(output);
    forall i | 1 <= i < |lines|
      ensures IfaceName(lines[i]).None?
    {
      if i != 1 {
        assert i == 2;
      }
    }
    UpFromFirstTwoLines(m, Initial, lines, "e");
    var r := GroupLines(m, StartGroup(Initial), lines);
    assert Frozen(r, "e", false);
    ViewUp(r, "e");
    assert IfGroups(m, Initial, Groups(output)) == r;
  }

  lemma UpOnThirdLineLines(lines: seq<string>)
    requires lines == ["e", " ", " UP"]
    ensures |lines| == 3 && Names(lines[0], "e") && IfaceName(lines[1]).None? && IfaceName(lines[2]).None?
    ensures !HasUp(lines[0]) && !HasUp(lines[1]) && HasUp(lines[2])
  {
    assert "e"[1..] == [] && NameLength("e") == 1 && "e"[..1] == "e";
    assert " UP"[1] == 'U' && " UP"[2] == 'P';
  }

  lemma ViewUp(st: IfState, k: string)
    requires Wf(st) && k in st.ret
    ensures k in View(st) && View(st)[k].up == st.dicts[st.ret[k]].up
  {
  }

  /** An output that is one group is parsed by the line loop alone. */
  lemma SingleGroup(m: Matchers, output: string)
    requires Groups(output) == [output]
    ensures IfGroups(m, Initial, Groups(output)) == GroupLines(m, StartGroup(Initial), SplitLines(output))
  {
    OneGroup(m, Initial, output);
  }

  lemma OneGroup(m: Matchers, st: IfState, g: string)
    requires Wf(st)
    ensures IfGroups(m, st, [g]) == GroupLines(m, StartGroup(st), SplitLines(g))
  {
    assert [g][..0] == [];
  }

  // ---------------------------------------------------------------- the merge once per group

  /**
   * The line loop with the merge taken out of it, as in the SaltStack function
   * the code comes from: every line updates `iface`, `data` and `updown`, and
   * `data` is stored or merged once, after the group's last line.
   */
  function GroupFields(m: Matchers, st: IfState, lines: seq<string>): (r: IfState)
    requires InGroup(st)
    ensures InGroup(r)
    decreases |lines|
  {
    if lines == [] then st else GroupFields(m, LineFields(m, st, lines[0]), lines[1..])
  }

  function IntendedGroup(m: Matchers, st: IfState, lines: seq<string>): (r: IfState)
    requires InGroup(st)
    ensures InGroup(r)
  {
    Merge(SetUp(GroupFields(m, st, lines)))
  }

  function IntendedIfGroups(m: Matchers, st: IfState, groups: seq<string>): (r: IfState)
    requires Wf(st)
    ensures Wf(r)
    decreases |groups|
  {
    if groups == [] then st
    else IntendedGroup(m, StartGroup(IntendedIfGroups(m, st, groups[..|groups| - 1])), SplitLines(groups[|groups| - 1]))
  }

  /** What `parse_ifconfig` returns once the merge is done once per group. */
  function IntendedIfconfigFacts(m: Matchers, output: string): map<string, IfaceFacts> {
    View(IntendedIfGroups(m, Initial, Groups(output)))
  }

  /** Some line of the group contains "UP". */
  predicate AnyUp(lines: seq<string>) {
    exists i :: 0 <= i < |lines| && HasUp(lines[i])
  }

  lemma AnyUpCons(lines: seq<string>)
    requires lines != []
    ensures AnyUp(lines) <==> HasUp(lines[0]) || AnyUp(lines[1..])
  {
    if AnyUp(lines) {
      var i :| 0 <= i < |lines| && HasUp(lines[i]);
      if i > 0 {
        assert lines[1..][i - 1] == lines[i];
      }
    }
    if AnyUp(lines[1..]) {
      var i :| 0 <= i < |lines[1..]| && HasUp(lines[1..][i]);
      assert lines[i + 1] == lines[1..][i];
    }
  }

  /** Lines that name no interface change only `data` and `updown`, which ends up said by any of them. */
  lemma {:induction false} GroupFieldsFrame(m: Matchers, st: IfState, lines: seq<string>)
    requires InGroup(st)
    requires forall i :: 0 <= i < |lines| ==> IfaceName(lines[i]).None?
    ensures var r := GroupFields(m, st, lines);
      r.ret == st.ret && r.data == st.data && r.iface == st.iface && r.updown == (st.updown || AnyUp(lines))
    decreases |lines|
  {
    if lines != [] {
      LineFieldsFrame(m, st, lines[0]);
      assert forall i :: 0 <= i < |lines[1..]| ==> lines[1..][i] == lines[i + 1];
      GroupFieldsFrame(m, LineFields(m, st, lines[0]), lines[1..]);
      AnyUpCons(lines);
    }
  }

  /**
   * With the merge once per group, an interface whose group is its first
   * appearance is stored as up exactly when some line of the group contains "UP".
   */
  lemma UpFromAnyLine(m: Matchers, st: IfState, lines: seq<string>, k: string)
    requires Wf(st) && |lines| >= 1 && Names(lines[0], k) && k !in st.ret
    requires forall i :: 1 <= i < |lines| ==> IfaceName(lines[i]).None?
    ensures var r := IntendedGroup(m, StartGroup(st), lines);
      k in r.ret && r.dicts[r.ret[k]].up == Some(AnyUp(lines))
  {
    var s0 := StartGroup(st);
    LineFieldsFrame(m, s0, lines[0]);
    var s1 := LineFields(m, s0, lines[0]);
    assert forall i :: 0 <= i < |lines[1..]| ==> lines[1..][i] == lines[i + 1];
    GroupFieldsFrame(m, s1, lines[1..]);
    AnyUpCons(lines);
    assert GroupFields(m, s0, lines) == GroupFields(m, s1, lines[1..]);
  }

  /** For the output "e\n \n UP", interface "e" is reported as up once the merge is done per group. */
  lemma UpOnThirdLineKept(m: Matchers)
    ensures "e" in IntendedIfconfigFacts(m, UpOnThirdLine) && IntendedIfconfigFacts(m, UpOnThirdLine)["e"].up == Some(true)
  {
    UpOnThirdLineParts();
    UpOnThirdLineLines(SplitLines(UpOnThirdLine));
    GroupUpKept(m, UpOnThirdLine);
  }

  lemma GroupUpKept(m: Matchers, output: string)
    requires Groups(output) == [output]
    requires var lines := SplitLines(output);
      |lines| == 3 && Names(lines[0], "e") && IfaceName(lines[1]).None? && IfaceName(lines[2]).None? && HasUp(lines[2])
    ensures "e" in IntendedIfconfigFacts(m, output) && IntendedIfconfigFacts(m, output)["e"].up == Some(true)
  {
    var lines := SplitLines(output);
    forall i | 1 <= i < |lines|
      ensures IfaceName(lines[i]).None?
    {
      if i != 1 {
        assert i == 2;
      }
    }
    UpFromAnyLine(m, Initial, lines, "e");
    var r := IntendedGroup(m, StartGroup(Initial), lines);
    ViewUp(r, "e");
    var groups := Groups(output);
    assert groups[..0] == [];
    assert IntendedIfGroups(m, Initial, groups) == r;
  }
}
