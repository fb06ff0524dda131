/** The full rebuild: from the configuration to every row of a freshly started database (cmd/oopt/sonic.go, cmd/oopt/main.go). */
module Rebuild {
  import opened Wrappers
  import opened Names
  import opened Transponder

  // ---- The intermediate SONiC configuration ----

  datatype SonicVlan = SonicVlan(members: seq<string>, vid: nat)

  /** VLANs are kept by id instead of "Vlan<id>", members by the pair instead of "Vlan<id>|<port>". */
  datatype SonicConfig = SonicConfig(ports: map<string, int>, vlans: map<nat, SonicVlan>, members: map<(nat, string), string>)

  datatype RebuildError = BadInterface(name: NameError) | MissingId | BadEndpoint(endpoint: NameError) | PortExists

  /** The interface is on the VLAN of this id; id 0 means no VLAN. */
  predicate OnVlan(c: Config, k: string, v: nat) {
    k in c.interfaces && c.interfaces[k].connection.Some? && c.interfaces[k].connection.value.id == Some(v) && v > 0
  }

  /** The switch port at the other end of a connection, if it names one. */
  function FarEnd(x: Connection): Option<string> {
    if x.line.None? then None
    else match OptEthernetName(x.line)
      case Err(_) => None
      case Ok(port) => Some(port)
  }

  function FarEndOf(c: Config, k: string): Option<string> {
    if k in c.interfaces && c.interfaces[k].connection.Some? then FarEnd(c.interfaces[k].connection.value) else None
  }

  function LaneOf(k: string): int {
    match ParseInterfaceName(k)
    case Err(_) => 0
    case Ok((main, sub)) => Lane(main, sub)
  }

  predicate Buildable(c: Config, k: string)
    requires k in c.interfaces
  {
    && ParseInterfaceName(k).Ok?
    && (c.interfaces[k].connection.Some? ==>
          var x := c.interfaces[k].connection.value;
          x.id.Some? && (x.id.value > 0 && x.line.Some? ==> OptEthernetName(x.line).Ok?))
  }

  const FIRST_LINE_PORT: nat := 17
  const LAST_LINE_PORT: nat := 32

  function LinePortNames(last: nat): set<string> {
    set i: nat | FIRST_LINE_PORT <= i <= last :: EthernetName(i)
  }

  /** Exactly the configurations the rebuild does not refuse. */
  predicate Rebuildable(c: Config) {
    && (forall k :: k in c.interfaces ==> Buildable(c, k))
    && LinePortNames(LAST_LINE_PORT) * c.interfaces.Keys == {}
  }

  /** One of the interfaces done brings the port into the VLAN: as its own name or as its far end. */
  ghost predicate Joins(c: Config, done: set<string>, v: nat, x: string) {
    exists k :: k in done && OnVlan(c, k, v) && (x == k || FarEndOf(c, k) == Some(x))
  }

  ghost predicate Used(c: Config, done: set<string>, v: nat) {
    exists k :: k in done && OnVlan(c, k, v)
  }

  /** The members an interface alone gives its VLAN. */
  function MembersOf(c: Config, k: string): seq<string> {
    match FarEndOf(c, k)
    case None => [k]
    case Some(x) => if x == k then [k] else [k, x]
  }

  predicate Sole(c: Config, done: set<string>, k: string, v: nat) {
    k in done && OnVlan(c, k, v) && forall j :: j in done && OnVlan(c, j, v) ==> j == k
  }

  /** No interface is the far end of another one on the same VLAN. */
  predicate EndsApart(c: Config) {
    forall j, k :: j in c.interfaces && k in c.interfaces && FarEndOf(c, k) == Some(j) ==> j == k
  }

  predicate NoRepeat(s: seq<string>) {
    forall i, j :: 0 <= i < j < |s| ==> s[i] != s[j]
  }

  predicate VlanOf(c: Config, done: set<string>, v: nat, vlan: SonicVlan) {
    && vlan.vid == v
    && (EndsApart(c) ==> NoRepeat(vlan.members))
    && (forall k :: k in done && Sole(c, done, k, v) ==> vlan.members == MembersOf(c, k))
  }

  predicate PortsBuilt(ports: map<string, int>, names: set<string>) {
    ports.Keys == names && forall k :: k in ports ==> ports[k] == LaneOf(k)
  }

  ghost predicate VlansBuilt(c: Config, done: set<string>, s: SonicConfig) {
    && (forall v :: v in s.vlans <==> Used(c, done, v))
    && (forall v :: v in s.vlans ==> VlanOf(c, done, v, s.vlans[v]))
    && (forall v, x :: v in s.vlans ==> (x in s.vlans[v].members <==> Joins(c, done, v, x)))
    && (forall v, x :: (v, x) in s.members <==> v in s.vlans && x in s.vlans[v].members)
    && (forall v, x :: (v, x) in s.members ==> s.members[(v, x)] == if x in done && OnVlan(c, x, v) then "untagged" else "tagged")
  }

  /** What the interfaces done so far amount to, whatever the order was. */
  ghost predicate Built(c: Config, done: set<string>, s: SonicConfig) {
    PortsBuilt(s.ports, done) && VlansBuilt(c, done, s)
  }

  /** The whole result: the interfaces, then the ports of the optical modules. */
  ghost predicate Rebuilt(c: Config, s: SonicConfig) {
    PortsBuilt(s.ports, c.interfaces.Keys + LinePortNames(LAST_LINE_PORT)) && VlansBuilt(c, c.interfaces.Keys, s)
  }

  /** The search for a member already in the list. */
  method Contains(s: seq<string>, x: string) returns (found: bool)
    ensures found <==> x in s
  {
    found := false;
    for i := 0 to |s|
      invariant found <==> x in s[..i]
    {
      if s[i] == x {
        found := true;
      }
    }
    assert s[..|s|] == s;
  }

  /** The members after one more interface. */
  function Joined(members: seq<string>, k: string, end: Option<string>): seq<string> {
    var ms := members + [k];
    if end.Some? && end.value !in ms then ms + [end.value] else ms
  }

  /** One round of the loop over the interfaces. */
  method AddInterface(c: Config, s: SonicConfig, k: string, ghost done: set<string>) returns (r: Result<SonicConfig, RebuildError>)
    requires k in c.interfaces && k !in done && done <= c.interfaces.Keys && Built(c, done, s)
    ensures r.Ok? <==> Buildable(c, k)
    ensures r.Ok? ==> Built(c, done + {k}, r.value)
  {
    hide ParseInterfaceName, OptEthernetName, Built;
    var indices := ParseInterfaceName(k);
    if indices.Err? {
      return Err(BadInterface(indices.error));
    }
    var ports := s.ports[k := Lane(indices.value.0, indices.value.1)];
    var vlans, members := s.vlans, s.members;
    var v := c.interfaces[k];
    if v.connection.Some? {
      var x := v.connection.value;
      if x.id.None? {
        return Err(MissingId);
      }
      var vid := x.id.value;
      if vid > 0 {
        var vlan := if vid in vlans then vlans[vid] else SonicVlan([], vid);
        var ms := vlan.members + [k];
        members := members[(vid, k) := "untagged"];
        if x.line.Some? {
          var name := OptEthernetName(x.line);
          if name.Err? {
            return Err(BadEndpoint(name.error));
          }
          var found := Contains(ms, name.value);
          if !found {
            ms := ms + [name.value];
            members := members[(vid, name.value) := "tagged"];
          }
        }
        assert ms == Joined(vlan.members, k, FarEndOf(c, k));
        vlans := vlans[vid := SonicVlan(ms, vlan.vid)];
        StepOnVlan(c, s, k, done, vid, SonicConfig(ports, vlans, members));
      } else {
        StepOffVlan(c, s, k, done, SonicConfig(ports, vlans, members));
      }
    } else {
      StepOffVlan(c, s, k, done, SonicConfig(ports, vlans, members));
    }
    r := Ok(SonicConfig(ports, vlans, members));
  }

  /** The VLAN an interface joins, before it does. */
  function VlanBefore(s: SonicConfig, v: nat): SonicVlan {
    if v in s.vlans then s.vlans[v] else SonicVlan([], v)
  }

  lemma {:induction false} UsedGrows(c: Config, done: set<string>, k: string, v: nat)
    ensures Used(c, done + {k}, v) <==> Used(c, done, v) || OnVlan(c, k, v)
  {
    if OnVlan(c, k, v) {
      assert k in done + {k};
    }
  }

  lemma {:induction false} JoinsGrow(c: Config, done: set<string>, k: string, v: nat, x: string)
    ensures Joins(c, done + {k}, v, x) <==> Joins(c, done, v, x) || (OnVlan(c, k, v) && (x == k || FarEndOf(c, k) == Some(x)))
  {
    hide FarEndOf, OnVlan;
    if OnVlan(c, k, v) && (x == k || FarEndOf(c, k) == Some(x)) {
      assert k in done + {k};
    }
  }

  lemma {:induction false} StepOffVlan(c: Config, s: SonicConfig, k: string, done: set<string>, s': SonicConfig)
    requires k in c.interfaces && k !in done && Built(c, done, s) && forall v :: !OnVlan(c, k, v)
    requires s' == SonicConfig(s.ports[k := LaneOf(k)], s.vlans, s.members)
    ensures Built(c, done + {k}, s')
  {
    hide OnVlan, FarEndOf, Joins, Used, VlanOf, LaneOf;
    forall v ensures Used(c, done + {k}, v) <==> Used(c, done, v) {
      UsedGrows(c, done, k, v);
    }
    forall v, x ensures Joins(c, done + {k}, v, x) <==> Joins(c, done, v, x) {
      JoinsGrow(c, done, k, v, x);
    }
    forall v | v in s.vlans ensures VlanOf(c, done + {k}, v, s.vlans[v]) {
      OtherVlan(c, k, done, v, s.vlans[v]);
    }
  }

  /** The shape of the step that puts an interface on its VLAN. */
  predicate PutOnVlan(c: Config, s: SonicConfig, k: string, v: nat, s': SonicConfig) {
    var vlan := VlanBefore(s, v);
    var end := FarEndOf(c, k);
    && s'.ports == s.ports[k := LaneOf(k)]
    && s'.vlans == s.vlans[v := SonicVlan(Joined(vlan.members, k, end), vlan.vid)]
    && s'.members == (if end.Some? && end.value !in vlan.members + [k] then s.members[(v, k) := "untagged"][(v, end.value) := "tagged"]
                      else s.members[(v, k) := "untagged"])
  }

  lemma {:induction false} StepOnVlan(c: Config, s: SonicConfig, k: string, done: set<string>, v: nat, s': SonicConfig)
    requires k in c.interfaces && k !in done && done <= c.interfaces.Keys && Built(c, done, s) && OnVlan(c, k, v)
    requires PutOnVlan(c, s, k, v, s')
    ensures Built(c, done + {k}, s')
  {
    hide OnVlan, FarEndOf, Joins, Used, VlanOf, LaneOf, Joined;
    OneVlan(c, k, v);
    forall w ensures Used(c, done + {k}, w) <==> Used(c, done, w) || w == v {
      UsedGrows(c, done, k, w);
    }
    forall w, x ensures Joins(c, done + {k}, w, x) <==> Joins(c, done, w, x) || (w == v && (x == k || FarEndOf(c, k) == Some(x))) {
      JoinsGrow(c, done, k, w, x);
    }
    JoinedSet(VlanBefore(s, v).members, k, FarEndOf(c, k));
    if v !in s.vlans {
      NotUsed(c, done, v);
    }
    forall w | w in s'.vlans ensures VlanOf(c, done + {k}, w, s'.vlans[w]) {
      if w == v {
        VlanStep(c, s, k, done, v, s');
      } else {
        OtherVlan(c, k, done, w, s.vlans[w]);
      }
    }
    MembersJoin(c, done, v);
    assert forall x :: x in done && OnVlan(c, x, v) ==> x in VlanBefore(s, v).members;
  }

  lemma {:induction false} MembersJoin(c: Config, done: set<string>, v: nat)
    ensures forall k :: k in done && OnVlan(c, k, v) ==> Joins(c, done, v, k) && Used(c, done, v)
  {
  }

  lemma {:induction false} OneVlan(c: Config, k: string, v: nat)
    requires OnVlan(c, k, v)
    ensures forall w :: OnVlan(c, k, w) <==> w == v
  {
  }

  lemma {:induction false} NotUsed(c: Config, done: set<string>, v: nat)
    requires !Used(c, done, v)
    ensures forall x :: !Joins(c, done, v, x)
    ensures forall k :: k in done ==> !OnVlan(c, k, v)
  {
  }

  lemma {:induction false} JoinedSet(members: seq<string>, k: string, end: Option<string>)
    ensures forall x :: x in Joined(members, k, end) <==> x in members || x == k || end == Some(x)
  {
    var ms := members + [k];
    assert forall x :: x in ms <==> x in members || x == k;
    if end.Some? {
      assert forall x :: x in ms + [end.value] <==> x in ms || x == end.value;
    }
  }

  lemma {:induction false} OtherVlan(c: Config, k: string, done: set<string>, w: nat, vlan: SonicVlan)
    requires VlanOf(c, done, w, vlan) && !OnVlan(c, k, w)
    ensures VlanOf(c, done + {k}, w, vlan)
  {
    hide OnVlan, NoRepeat, EndsApart, MembersOf;
    forall j | j in done + {k} && Sole(c, done + {k}, j, w) ensures Sole(c, done, j, w) {
    }
  }

  lemma {:induction false} NotYetJoined(c: Config, done: set<string>, k: string, v: nat)
    requires EndsApart(c) && k in c.interfaces && k !in done && done <= c.interfaces.Keys
    ensures !Joins(c, done, v, k)
  {
  }

  lemma {:induction false} VlanStep(c: Config, s: SonicConfig, k: string, done: set<string>, v: nat, s': SonicConfig)
    requires k in c.interfaces && k !in done && done <= c.interfaces.Keys && Built(c, done, s) && OnVlan(c, k, v)
    requires PutOnVlan(c, s, k, v, s')
    ensures VlanOf(c, done + {k}, v, s'.vlans[v])
  {
    hide OnVlan, FarEndOf, LaneOf;
    var vlan := VlanBefore(s, v);
    assert s'.vlans[v] == SonicVlan(Joined(vlan.members, k, FarEndOf(c, k)), vlan.vid);
    if EndsApart(c) {
      NotYetJoined(c, done, k, v);
      assert NoRepeat(vlan.members + [k]);
    }
    if Sole(c, done + {k}, k, v) {
      assert !Used(c, done, v);
    }
    forall j | j in done + {k} && Sole(c, done + {k}, j, v) ensures j == k {
      assert k in done + {k};
    }
  }

  lemma {:induction false} LinePortNamesGrow(i: nat)
    requires i >= FIRST_LINE_PORT
    ensures LinePortNames(i) == LinePortNames(i - 1) + {EthernetName(i)} && EthernetName(i) !in LinePortNames(i - 1)
    ensures LinePortNames(FIRST_LINE_PORT - 1) == {} && LaneOf(EthernetName(i)) == i
  {
    hide EthernetName;
    forall j: nat | j < i ensures EthernetName(j) != EthernetName(i) {
      if EthernetName(j) == EthernetName(i) {
        UnbrokenNames(j, i);
      }
    }
    UnbrokenLane(i);
  }

  lemma {:induction false} UnbrokenNames(i: nat, j: nat)
    requires EthernetName(i) == EthernetName(j)
    ensures i == j
  {
    InterfaceNameInjective(i, 0, j, 0);
  }

  lemma {:induction false} UnbrokenLane(i: nat)
    ensures LaneOf(EthernetName(i)) == i
  {
    ParsePrintedName(i, 0);
  }

  /** The walk over the interfaces of NewSONiCConfigFromModel. */
  method AddInterfaces(c: Config) returns (r: Result<SonicConfig, RebuildError>)
    ensures r.Ok? <==> forall k :: k in c.interfaces ==> Buildable(c, k)
    ensures r.Ok? ==> Built(c, c.interfaces.Keys, r.value)
  {
    hide *;
    var s := SonicConfig(map[], map[], map[]);
    var rest := c.interfaces.Keys;
    NothingBuilt(c);
    assert c.interfaces.Keys - rest == {};
    while rest != {}
      invariant rest <= c.interfaces.Keys
      invariant forall k :: k in c.interfaces && k !in rest ==> Buildable(c, k)
      invariant Built(c, c.interfaces.Keys - rest, s)
      decreases |rest|
    {
      var k :| k in rest;
      var step := AddInterface(c, s, k, c.interfaces.Keys - rest);
      if step.Err? {
        return step;
      }
      assert c.interfaces.Keys - (rest - {k}) == c.interfaces.Keys - rest + {k};
      s, rest := step.value, rest - {k};
    }
    assert c.interfaces.Keys - rest == c.interfaces.Keys;
    r := Ok(s);
  }

  lemma {:induction false} NothingBuilt(c: Config)
    ensures Built(c, {}, SonicConfig(map[], map[], map[]))
  {
  }

  /** NewSONiCConfigFromModel: success does not depend on the walk's order, and neither does the result as sets. */
  method NewSonicConfig(c: Config) returns (r: Result<SonicConfig, RebuildError>)
    ensures r.Ok? <==> Rebuildable(c)
    ensures r.Ok? ==> Rebuilt(c, r.value)
  {
    hide Buildable, VlansBuilt, LaneOf, LinePortNames, EthernetName;
    var step := AddInterfaces(c);
    if step.Err? {
      return step;
    }
    var s := step.value;
    var ports := s.ports;
    LinePortNamesGrow(FIRST_LINE_PORT);
    for i: nat := FIRST_LINE_PORT to LAST_LINE_PORT + 1
      invariant PortsBuilt(ports, c.interfaces.Keys + LinePortNames(i - 1))
      invariant LinePortNames(i - 1) * c.interfaces.Keys == {}
    {
      var name := EthernetName(i);
      LinePortNamesGrow(i);
      if name in ports {
        LinePortIn(i);
        assert name in LinePortNames(LAST_LINE_PORT) * c.interfaces.Keys;
        return Err(PortExists);
      }
      ports := ports[name := i];
    }
    r := Ok(SonicConfig(ports, s.vlans, s.members));
    SameVlans(c, s, r.value);
  }

  lemma {:induction false} LinePortIn(i: nat)
    requires FIRST_LINE_PORT <= i <= LAST_LINE_PORT
    ensures EthernetName(i) in LinePortNames(LAST_LINE_PORT)
  {
  }

  lemma {:induction false} SameVlans(c: Config, s: SonicConfig, t: SonicConfig)
    requires VlansBuilt(c, c.interfaces.Keys, s) && t.vlans == s.vlans && t.members == s.members
    ensures VlansBuilt(c, c.interfaces.Keys, t)
  {
  }
}
