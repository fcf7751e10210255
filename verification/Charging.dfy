/** internal/sbi/processor/charging_trigger.go: usage reports become the used units that the
    session reports to the charging function, by rating group. */
module Charging {
  import opened Wrappers

  datatype TriggerType = VolumeLimit | OtherTrigger(name: string)
  datatype Category = Immediate | Deferred
  datatype Method = Online | Offline
  datatype Level = PduSessionCharging | FlowCharging

  datatype UsageReport = UsageReport(urr: nat, upf: string, total: nat, upLink: nat, downLink: nat,
      trigger: Option<TriggerType>)

  datatype ChargingInfo = ChargingInfo(quotaMethod: Method, level: Level, ratingGroup: int)

  datatype Container = Container(quotaMethod: Method, trigger: TriggerType, category: Category, total: int, upLink: int,
      downLink: int)

  datatype MultipleUnitUsage = MultipleUnitUsage(ratingGroup: int, upf: string, containers: seq<Container>,
      requestedUnit: Option<int>)

  type Infos = map<nat, ChargingInfo>

  /** The conversion of an unsigned volume of 64 bits to int32. */
  function Int32(v: nat): int {
    var w := v % 0x1_0000_0000;
    if w < 0x8000_0000 then w else w - 0x1_0000_0000
  }

  /** A report that is charged: it has a trigger and its URR has charging information. */
  predicate Charged(r: UsageReport, infos: Infos) {
    r.trigger.Some? && r.urr in infos
  }

  predicate InGroup(r: UsageReport, infos: Infos, rg: int) {
    Charged(r, infos) && infos[r.urr].ratingGroup == rg
  }

  /** The container tells the report: its trigger, the method of its URR, its volumes as far as
      they fit, and as deferred exactly a volume limit of a URR of flow level. */
  predicate TellsReport(c: Container, r: UsageReport, infos: Infos) {
    && Charged(r, infos)
    && r.trigger == Some(c.trigger) && c.quotaMethod == infos[r.urr].quotaMethod
    && (c.category == Deferred <==> infos[r.urr].level == FlowCharging && r.trigger == Some(VolumeLimit))
    && c.total == Int32(r.total) && c.upLink == Int32(r.upLink) && c.downLink == Int32(r.downLink)
  }

  /** The charged reports of a rating group, in order. */
  function GroupReports(reports: seq<UsageReport>, infos: Infos, rg: int): (group: seq<UsageReport>)
    ensures AllInGroup(group, infos, rg)
  {
    if reports == [] then []
    else
      var n := |reports| - 1;
      GroupReports(reports[..n], infos, rg) + if InGroup(reports[n], infos, rg) then [reports[n]] else []
  }

  predicate AllInGroup(group: seq<UsageReport>, infos: Infos, rg: int) {
    forall i :: 0 <= i < |group| ==> InGroup(group[i], infos, rg)
  }

  /** What the charging function is told about a group: one container for every report, in
      order, the UPF of the first report, and a request for new units exactly if the URR of the
      first report is charged online. */
  ghost predicate Tells(usage: MultipleUnitUsage, reports: seq<UsageReport>, infos: Infos, unit: int) {
    var group := GroupReports(reports, infos, usage.ratingGroup);
    && group != [] && |usage.containers| == |group|
    && (forall k :: 0 <= k < |group| ==> TellsReport(usage.containers[k], group[k], infos))
    && usage.upf == group[0].upf
    && usage.requestedUnit == if infos[group[0].urr].quotaMethod == Online then Some(unit) else None
  }

  predicate DistinctGroups(usages: seq<MultipleUnitUsage>) {
    forall i, j :: 0 <= i < j < |usages| ==> usages[i].ratingGroup != usages[j].ratingGroup
  }

  /** Every group with a charged report is told once, and nothing else. */
  ghost predicate TellsAll(usages: seq<MultipleUnitUsage>, reports: seq<UsageReport>, infos: Infos, unit: int) {
    && DistinctGroups(usages)
    && (forall i :: 0 <= i < |usages| ==> Tells(usages[i], reports, infos, unit))
    && (forall r :: r in reports && Charged(r, infos) ==> exists i ::
        0 <= i < |usages| && usages[i].ratingGroup == infos[r.urr].ratingGroup)
  }

  /** The usage of every group among the reports. */
  ghost predicate Grouped(groups: map<int, MultipleUnitUsage>, reports: seq<UsageReport>, infos: Infos, unit: int) {
    && (forall rg :: rg in groups ==> groups[rg].ratingGroup == rg && Tells(groups[rg], reports, infos, unit))
    && (forall rg :: rg !in groups ==> GroupReports(reports, infos, rg) == [])
  }

  lemma OneMoreReport(reports: seq<UsageReport>, ur: UsageReport, infos: Infos, rg: int)
    ensures GroupReports(reports + [ur], infos, rg) == GroupReports(reports, infos, rg) + if InGroup(ur, infos, rg)
            then [ur] else []
  {
    assert (reports + [ur])[..|reports|] == reports;
  }

  /** The groups keep the order of the reports: a report is preceded in its group by the reports
      of the group that came before it. */
  lemma {:induction false} GroupOrder(reports: seq<UsageReport>, infos: Infos, rg: int, i: nat)
    requires i < |reports| && InGroup(reports[i], infos, rg)
    ensures var k := |GroupReports(reports[..i], infos, rg)|;
            k < |GroupReports(reports, infos, rg)| && GroupReports(reports, infos, rg)[k] == reports[i]
    decreases |reports|
  {
    var n := |reports| - 1;
    if i < n {
      GroupOrder(reports[..n], infos, rg, i);
      assert reports[..n][..i] == reports[..i];
    }
  }

  lemma {:induction false} InItsGroup(reports: seq<UsageReport>, infos: Infos, r: UsageReport)
    requires r in reports && Charged(r, infos)
    ensures r in GroupReports(reports, infos, infos[r.urr].ratingGroup)
  {
    var n := |reports| - 1;
    if r != reports[n] { InItsGroup(reports[..n], infos, r); }
  }

  // A report that is not charged, and one that is added to its group.
  lemma GroupedSame(groups: map<int, MultipleUnitUsage>, reports: seq<UsageReport>, ur: UsageReport, infos: Infos,
                    unit: int)
    requires Grouped(groups, reports, infos, unit) && !Charged(ur, infos)
    ensures Grouped(groups, reports + [ur], infos, unit)
  {
    forall k
      ensures GroupReports(reports + [ur], infos, k) == GroupReports(reports, infos, k)
    {
      OneMoreReport(reports, ur, infos, k);
    }
  }

  lemma GroupedMore(groups: map<int, MultipleUnitUsage>, usage: MultipleUnitUsage, reports: seq<UsageReport>,
                    ur: UsageReport,
                    infos: Infos, unit: int)
    requires Grouped(groups, reports, infos, unit) && InGroup(ur, infos, usage.ratingGroup)
    requires Tells(usage, reports + [ur], infos, unit)
    ensures Grouped(groups[usage.ratingGroup := usage], reports + [ur], infos, unit)
  {
    forall k | k != usage.ratingGroup
      ensures GroupReports(reports + [ur], infos, k) == GroupReports(reports, infos, k)
    {
      OneMoreReport(reports, ur, infos, k);
    }
  }

  lemma TellsFirst(usage: MultipleUnitUsage, reports: seq<UsageReport>, ur: UsageReport, infos: Infos, unit: int)
    requires GroupReports(reports, infos, usage.ratingGroup) == [] && InGroup(ur, infos, usage.ratingGroup)
    requires |usage.containers| == 1 && TellsReport(usage.containers[0], ur, infos) && usage.upf == ur.upf
    requires usage.requestedUnit == if infos[ur.urr].quotaMethod == Online then Some(unit) else None
    ensures Tells(usage, reports + [ur], infos, unit)
  {
    OneMoreReport(reports, ur, infos, usage.ratingGroup);
  }

  lemma TellsNext(usage: MultipleUnitUsage, reports: seq<UsageReport>, ur: UsageReport, uu: Container, infos: Infos,
                  unit: int)
    requires Tells(usage, reports, infos, unit) && InGroup(ur, infos, usage.ratingGroup) && TellsReport(uu, ur, infos)
    ensures Tells(usage.(containers := usage.containers + [uu]), reports + [ur], infos, unit)
  {
    OneMoreReport(reports, ur, infos, usage.ratingGroup);
  }

  method NewContainer(ur: UsageReport, infos: Infos) returns (uu: Container)
    requires Charged(ur, infos)
    ensures TellsReport(uu, ur, infos)
  {
    var info := infos[ur.urr];
    var category := Immediate;
    if info.level == FlowCharging && ur.trigger.value == VolumeLimit { category := Deferred; }
    return Container(info.quotaMethod, ur.trigger.value, category, Int32(ur.total), Int32(ur.upLink),
                     Int32(ur.downLink));
  }

  /** Adds one report to the usage of its group. */
  method AddReport(groups: map<int, MultipleUnitUsage>, ur: UsageReport, infos: Infos, unit: int,
                   ghost reports: seq<UsageReport>)
    returns (r: map<int, MultipleUnitUsage>)
    requires Grouped(groups, reports, infos, unit)
    ensures Grouped(r, reports + [ur], infos, unit)
  {
    if !(ur.trigger.Some? && ur.urr in infos) {
      GroupedSame(groups, reports, ur, infos, unit);
      return groups;
    }
    var info := infos[ur.urr];
    var rg := info.ratingGroup;
    var uu := NewContainer(ur, infos);
    var usage := MultipleUnitUsage(rg, ur.upf, [uu], if info.quotaMethod == Online then Some(unit) else None);
    if rg in groups {
      usage := groups[rg].(containers := groups[rg].containers + [uu]);
      TellsNext(groups[rg], reports, ur, uu, infos, unit);
    } else {
      TellsFirst(usage, reports, ur, infos, unit);
    }
    GroupedMore(groups, usage, reports, ur, infos, unit);
    return groups[rg := usage];
  }

  class SMContext {
    var reports: seq<UsageReport>
    var infos: Infos
    var requestedUnit: int

    method BuildMultiUnitUsageFromUsageReport() returns (usages: seq<MultipleUnitUsage>)
      modifies this`reports
      ensures reports == []
      ensures TellsAll(usages, old(reports), infos, requestedUnit)
    {
      var groups: map<int, MultipleUnitUsage> := map[];
      var i := 0;
      while i < |reports|
        invariant i <= |reports| && reports == old(reports)
        invariant Grouped(groups, reports[..i], infos, requestedUnit)
      {
        groups := AddReport(groups, reports[i], infos, requestedUnit, reports[..i]);
        assert reports[..i + 1] == reports[..i] + [reports[i]];
        i := i + 1;
      }
      assert reports[..i] == reports;
      reports := [];
      usages := UsagesOf(groups);
      AllTold(groups, usages, old(reports), infos, requestedUnit);
    }
  }

  // Every group was told.
  lemma AllTold(groups: map<int, MultipleUnitUsage>, usages: seq<MultipleUnitUsage>, reports: seq<UsageReport>,
                infos: Infos, unit: int)
    requires Grouped(groups, reports, infos, unit) && ValuesOf(usages, groups)
    ensures TellsAll(usages, reports, infos, unit)
  {
    forall i | 0 <= i < |usages|
      ensures Tells(usages[i], reports, infos, unit)
    {
    }
    forall r | r in reports && Charged(r, infos)
      ensures infos[r.urr].ratingGroup in groups
    {
      InItsGroup(reports, infos, r);
    }
  }

  /** Every value of the map, once. */
  ghost predicate ValuesOf(usages: seq<MultipleUnitUsage>, groups: map<int, MultipleUnitUsage>) {
    && DistinctGroups(usages)
    && (forall i :: 0 <= i < |usages| ==>
          usages[i].ratingGroup in groups && groups[usages[i].ratingGroup] == usages[i])
    && (forall rg :: rg in groups ==> exists i :: 0 <= i < |usages| && usages[i].ratingGroup == rg)
  }

  /** The values of the map, in any order. */
  method UsagesOf(groups: map<int, MultipleUnitUsage>) returns (usages: seq<MultipleUnitUsage>)
    requires forall rg :: rg in groups ==> groups[rg].ratingGroup == rg
    ensures ValuesOf(usages, groups)
  {
    usages := [];
    var todo := groups.Keys;
    while todo != {}
      invariant todo <= groups.Keys
      invariant forall i :: 0 <= i < |usages| ==>
                  usages[i].ratingGroup in groups && usages[i].ratingGroup !in todo
                      && groups[usages[i].ratingGroup] == usages[i]
      invariant forall rg ::
                rg in groups && rg !in todo ==> exists i :: 0 <= i < |usages| && usages[i].ratingGroup == rg
      invariant DistinctGroups(usages)
      decreases todo
    {
      var rg := AnyOf(todo);
      todo := todo - {rg};
      ghost var before := usages;
      usages := usages + [groups[rg]];
      assert usages[|before|].ratingGroup == rg && forall i :: 0 <= i < |before| ==> usages[i] == before[i];
    }
  }

  // --- Nothing is lost and nothing is counted twice ---

  function CountCharged(reports: seq<UsageReport>, infos: Infos): nat {
    if reports == [] then 0
    else
      var n := |reports| - 1;
      CountCharged(reports[..n], infos) + if Charged(reports[n], infos) then 1 else 0
  }

  function CountContainers(usages: seq<MultipleUnitUsage>): nat {
    if usages == [] then 0 else CountContainers(usages[..|usages| - 1]) + |usages[|usages| - 1].containers|
  }

  /** The reports that the groups take together. */
  function CountGroups(groups: seq<int>, reports: seq<UsageReport>, infos: Infos): nat {
    if groups == [] then 0
    else
      var n := |groups| - 1;
      CountGroups(groups[..n], reports, infos) + |GroupReports(reports, infos, groups[n])|
  }

  // One more report is taken by its own group, if that is among them.
  lemma {:induction false} OneMore(groups: seq<int>, reports: seq<UsageReport>, infos: Infos)
    requires reports != [] && forall i, j :: 0 <= i < j < |groups| ==> groups[i] != groups[j]
    ensures var n := |reports| - 1;
            var taken := Charged(reports[n], infos) && infos[reports[n].urr].ratingGroup in groups;
            CountGroups(groups, reports, infos) == CountGroups(groups, reports[..n], infos) + if taken then 1 else 0
    decreases |groups|
  {
    if groups != [] {
      var m := |groups| - 1;
      OneMore(groups[..m], reports, infos);
      assert groups == groups[..m] + [groups[m]];
      assert groups[m] !in groups[..m];
    }
  }

  lemma {:induction false} GroupsTakeAll(groups: seq<int>, reports: seq<UsageReport>, infos: Infos)
    requires forall i, j :: 0 <= i < j < |groups| ==> groups[i] != groups[j]
    requires forall r :: r in reports && Charged(r, infos) ==> infos[r.urr].ratingGroup in groups
    ensures CountGroups(groups, reports, infos) == CountCharged(reports, infos)
    decreases |reports|
  {
    if reports == [] {
      NoReports(groups, infos);
    } else {
      var n := |reports| - 1;
      assert reports[n] in reports && forall r :: r in reports[..n] ==> r in reports;
      GroupsTakeAll(groups, reports[..n], infos);
      OneMore(groups, reports, infos);
    }
  }

  lemma {:induction false} NoReports(groups: seq<int>, infos: Infos)
    ensures CountGroups(groups, [], infos) == 0
  {
    if groups != [] { NoReports(groups[..|groups| - 1], infos); }
  }

  function GroupsOf(usages: seq<MultipleUnitUsage>): seq<int> {
    seq(|usages|, i requires 0 <= i < |usages| => usages[i].ratingGroup)
  }

  lemma {:induction false} ContainersAreGroups(usages: seq<MultipleUnitUsage>, reports: seq<UsageReport>, infos: Infos,
                                               unit: int)
    requires forall i :: 0 <= i < |usages| ==> Tells(usages[i], reports, infos, unit)
    ensures CountContainers(usages) == CountGroups(GroupsOf(usages), reports, infos)
  {
    if usages != [] {
      var n := |usages| - 1;
      ContainersAreGroups(usages[..n], reports, infos, unit);
      assert GroupsOf(usages)[..n] == GroupsOf(usages[..n]);
    }
  }

  /** As many containers are told as there are charged reports. */
  lemma EveryReportOnce(usages: seq<MultipleUnitUsage>, reports: seq<UsageReport>, infos: Infos, unit: int)
    requires TellsAll(usages, reports, infos, unit)
    ensures CountContainers(usages) == CountCharged(reports, infos)
  {
    var groups := GroupsOf(usages);
    forall r | r in reports && Charged(r, infos)
      ensures infos[r.urr].ratingGroup in groups
    {
      var i :| 0 <= i < |usages| && usages[i].ratingGroup == infos[r.urr].ratingGroup;
      assert groups[i] == infos[r.urr].ratingGroup;
    }
    GroupsTakeAll(groups, reports, infos);
    ContainersAreGroups(usages, reports, infos, unit);
  }

  /** The three volumes of a report and of a container. */
  datatype Volume = Total | UpLink | DownLink

  function VolumeOf(r: UsageReport, v: Volume): nat {
    match v
    case Total => r.total
    case UpLink => r.upLink
    case DownLink => r.downLink
  }

  function ToldVolume(c: Container, v: Volume): int {
    match v
    case Total => c.total
    case UpLink => c.upLink
    case DownLink => c.downLink
  }

  function Reported(group: seq<UsageReport>, v: Volume): nat {
    if group == [] then 0 else Reported(group[..|group| - 1], v) + VolumeOf(group[|group| - 1], v)
  }

  function Told(containers: seq<Container>, v: Volume): int {
    if containers == [] then 0
        else Told(containers[..|containers| - 1], v) + ToldVolume(containers[|containers| - 1], v)
  }

  predicate AllFit(group: seq<UsageReport>, v: Volume) {
    forall i :: 0 <= i < |group| ==> VolumeOf(group[i], v) < 0x8000_0000
  }

  /** A volume is told modulo 2^32, between -2^31 and 2^31. */
  lemma Int32Is(v: nat)
    ensures -0x8000_0000 <= Int32(v) < 0x8000_0000 && (v - Int32(v)) % 0x1_0000_0000 == 0
    ensures Int32(v) <= v && (Int32(v) == v <==> v < 0x8000_0000)
  {
  }

  lemma OneConserved(c: Container, r: UsageReport, infos: Infos, v: Volume)
    requires TellsReport(c, r, infos)
    ensures ToldVolume(c, v) == Int32(VolumeOf(r, v)) <= VolumeOf(r, v)
    ensures Int32(VolumeOf(r, v)) == VolumeOf(r, v) <==> VolumeOf(r, v) < 0x8000_0000
  {
    Int32Is(VolumeOf(r, v));
  }

  lemma {:induction false} SumConserved(containers: seq<Container>, group: seq<UsageReport>, infos: Infos, v: Volume)
    requires |containers| == |group|
    requires forall i :: 0 <= i < |group| ==> TellsReport(containers[i], group[i], infos)
    ensures Told(containers, v) <= Reported(group, v)
    ensures Told(containers, v) == Reported(group, v) <==> AllFit(group, v)
  {
    if group != [] {
      var n := |group| - 1;
      SumConserved(containers[..n], group[..n], infos, v);
      OneConserved(containers[n], group[n], infos, v);
      assert AllFit(group, v) <==> AllFit(group[..n], v) && VolumeOf(group[n], v) < 0x8000_0000;
    }
  }

  /** Each of the volumes that a group has reported is told in full exactly if every report's
      volume fits 31 bits, and too low otherwise. */
  lemma VolumeConserved(usage: MultipleUnitUsage, reports: seq<UsageReport>, infos: Infos, unit: int, v: Volume)
    requires Tells(usage, reports, infos, unit)
    ensures var group := GroupReports(reports, infos, usage.ratingGroup);
            Told(usage.containers, v) <= Reported(group, v)
                && (Told(usage.containers, v) == Reported(group, v) <==> AllFit(group, v))
  {
    SumConserved(usage.containers, GroupReports(reports, infos, usage.ratingGroup), infos, v);
  }

  /** A report of 2^31 octets is told as a negative volume. */
  lemma LargeVolumeLost(info: ChargingInfo, usage: MultipleUnitUsage, unit: int)
    requires var r := UsageReport(1, "A", 0x8000_0000, 0x8000_0000, 0, Some(VolumeLimit));
             usage.ratingGroup == info.ratingGroup && Tells(usage, [r], map[1 := info], unit)
    ensures Told(usage.containers, Total) == Told(usage.containers, UpLink) == -0x8000_0000
    ensures Told(usage.containers, DownLink) == 0
  {
    var r, infos := UsageReport(1, "A", 0x8000_0000, 0x8000_0000, 0, Some(VolumeLimit)), map[1 := info];
    OneMoreReport([], r, infos, info.ratingGroup);
    assert [] + [r] == [r];
    assert GroupReports([r], infos, info.ratingGroup) == [r];
    assert usage.containers[..0] == [];
  }
}
