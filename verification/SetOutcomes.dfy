/** How a Set ends, for every request and every device: when it succeeds, with which status it fails, what the device is sent. */
module SetOutcomes {
  import opened Wrappers
  import opened PathTree
  import opened JsonTree
  import opened JsonEdit
  import opened Transaction

  // ---- The operations made so far ----

  /** The operation makes the second tree of the first; if the device is to be told, the tree is valid and the device takes it. */
  ghost predicate Step(m: Model, device: Option<Behaviour>, prefix: GnmiPath, o: Operation, t: Members, t': Members, sent: seq<Members>) {
    && EditTree(m, prefix, o, t) == Ok(t')
    && (IsTold(m, prefix, o, t) ==> m.valid(t') && (device.Some? ==> device.value(sent, t') == Takes))
  }

  /** What the device is sent for the operation. */
  function Telling(m: Model, prefix: GnmiPath, o: Operation, t: Members, t': Members): seq<Members> {
    if IsTold(m, prefix, o, t) then [t'] else []
  }

  /** Trees such that each of the first operations makes the next of the one before, and the device takes all it is told. */
  ghost predicate Chain(m: Model, device: Option<Behaviour>, prefix: GnmiPath, os: seq<Operation>, ts: seq<Members>, sent: seq<Members>)
    decreases |ts|
  {
    && ts != []
    && (|ts| > 1 ==>
          && os != [] && Step(m, device, prefix, os[0], ts[0], ts[1], sent)
          && Chain(m, device, prefix, os[1..], ts[1..], sent + Telling(m, prefix, os[0], ts[0], ts[1])))
  }

  /** What the device is told along the trees. */
  function ToldTrees(m: Model, prefix: GnmiPath, os: seq<Operation>, ts: seq<Members>): seq<Members>
    decreases |ts|
  {
    if |ts| <= 1 || os == [] then []
    else Telling(m, prefix, os[0], ts[0], ts[1]) + ToldTrees(m, prefix, os[1..], ts[1..])
  }

  /** All it was sent before and along the trees; without a device nothing is sent. */
  function SentAlong(m: Model, device: Option<Behaviour>, prefix: GnmiPath, os: seq<Operation>, ts: seq<Members>, sent: seq<Members>): seq<Members> {
    if device.None? then sent else sent + ToldTrees(m, prefix, os, ts)
  }

  lemma {:induction false} StepPerforms(m: Model, device: Option<Behaviour>, config: Members, prefix: GnmiPath, o: Operation, w: World, t: Members)
    requires Step(m, device, prefix, o, w.tree, t, w.sent)
    ensures Perform(m, device, config, prefix, o, w).1 == None
    ensures var w' := Perform(m, device, config, prefix, o, w).0;
      w'.tree == t && w'.sent == if device.None? then w.sent else w.sent + Telling(m, prefix, o, w.tree, t)
  {
    hide EditTree, IsTold;
  }

  /** Without a device only the trees matter. */
  lemma {:induction false} NoDevice(m: Model, prefix: GnmiPath, os: seq<Operation>, ts: seq<Members>, sent: seq<Members>, sent': seq<Members>)
    ensures Chain(m, None, prefix, os, ts, sent) <==> Chain(m, None, prefix, os, ts, sent')
    decreases |ts|
  {
    if |ts| > 1 && os != [] {
      hide EditTree, IsTold;
      var told := Telling(m, prefix, os[0], ts[0], ts[1]);
      NoDevice(m, prefix, os[1..], ts[1..], sent + told, sent' + told);
    }
  }

  /** The operations along the trees succeed, and the rest goes on from the last of them. */
  lemma {:induction false} AlongChain(m: Model, device: Option<Behaviour>, config: Members, prefix: GnmiPath, os: seq<Operation>, ts: seq<Members>, w: World)
    returns (w': World)
    requires Chain(m, device, prefix, os, ts, w.sent) && ts[0] == w.tree
    ensures |ts| <= |os| + 1 && w'.tree == ts[|ts| - 1] && w'.sent == SentAlong(m, device, prefix, os, ts, w.sent)
    ensures PerformAll(m, device, config, prefix, os, w) == PerformAll(m, device, config, prefix, os[|ts| - 1..], w')
    decreases |ts|
  {
    hide EditTree, IsTold, Perform;
    w' := w;
    if |ts| > 1 {
      StepPerforms(m, device, config, prefix, os[0], w, ts[1]);
      var w1 := Perform(m, device, config, prefix, os[0], w).0;
      if device.None? {
        NoDevice(m, prefix, os[1..], ts[1..], w.sent + Telling(m, prefix, os[0], ts[0], ts[1]), w1.sent);
      }
      w' := AlongChain(m, device, config, prefix, os[1..], ts[1..], w1);
      assert os[1..][|ts| - 2..] == os[|ts| - 1..];
    } else {
      assert os[0..] == os;
    }
  }

  /** The trees of a run that does not fail. */
  lemma {:induction false} RunHasChain(m: Model, device: Option<Behaviour>, config: Members, prefix: GnmiPath, os: seq<Operation>, w: World)
    returns (ts: seq<Members>)
    requires PerformAll(m, device, config, prefix, os, w).1 == None
    ensures |ts| == |os| + 1 && ts[0] == w.tree && Chain(m, device, prefix, os, ts, w.sent)
    decreases |os|
  {
    hide EditTree, IsTold;
    if os == [] {
      ts := [w.tree];
    } else {
      var w1 := Perform(m, device, config, prefix, os[0], w).0;
      var rest := RunHasChain(m, device, config, prefix, os[1..], w1);
      ts := [w.tree] + rest;
      assert ts[1..] == rest;
      var told := Telling(m, prefix, os[0], w.tree, w1.tree);
      assert Step(m, device, prefix, os[0], w.tree, w1.tree, w.sent);
      if device.None? {
        NoDevice(m, prefix, os[1..], rest, w1.sent, w.sent + told);
      } else {
        assert w1.sent == w.sent + told;
      }
    }
  }

  // ---- When a Set succeeds ----

  /** The trees of a whole request: one more than operations, from the stored configuration to a valid one. */
  ghost predicate Trees(m: Model, device: Option<Behaviour>, config: Members, req: Request, sent: seq<Members>, ts: seq<Members>) {
    var os := req.Operations();
    && |ts| == |os| + 1 && ts[0] == config
    && Chain(m, device, req.prefix, os, ts, sent)
    && m.valid(ts[|os|])
  }

  /**
   A Set succeeds exactly if there are trees from the stored configuration on such that each operation makes the next one,
   every told one is valid and taken by the device, and the last one is valid. That last one is stored, and the device was
   sent the told ones and nothing else.
   */
  lemma {:induction false} SetSucceeds(m: Model, device: Option<Behaviour>, config: Members, req: Request, held: Members, sent: seq<Members>)
    ensures var (config', w, f) := SetRequest(m, device, config, req, held, sent);
      && (f == None <==> exists ts :: Trees(m, device, config, req, sent, ts))
      && forall ts :: Trees(m, device, config, req, sent, ts) ==>
           config' == ts[|req.Operations()|] && w.sent == SentAlong(m, device, req.prefix, req.Operations(), ts, sent)
  {
    hide PerformAll, Chain, ToldTrees;
    var os, w := req.Operations(), World(config, held, sent);
    forall ts | Trees(m, device, config, req, sent, ts)
      ensures var (config', w, f) := SetRequest(m, device, config, req, held, sent);
        f == None && config' == ts[|os|] && w.sent == SentAlong(m, device, req.prefix, os, ts, sent) {
      var w' := AlongChain(m, device, config, req.prefix, os, ts, w);
      NothingMore(m, device, config, req.prefix, os[|os|..], w');
    }
    if SetRequest(m, device, config, req, held, sent).2 == None {
      var ts := RunHasChain(m, device, config, req.prefix, os, w);
      var w' := AlongChain(m, device, config, req.prefix, os, ts, w);
      NothingMore(m, device, config, req.prefix, os[|os|..], w');
      assert Trees(m, device, config, req, sent, ts);
    }
  }

  lemma {:induction false} NothingMore(m: Model, device: Option<Behaviour>, config: Members, prefix: GnmiPath, os: seq<Operation>, w: World)
    requires os == []
    ensures PerformAll(m, device, config, prefix, os, w) == (w, None)
  {
  }

  // ---- How a Set fails ----

  /** The answer of a Set: the status of its failure. */
  function Answer(r: (Members, World, Option<Failure>)): Option<Code> {
    if r.2.Some? then Some(StatusOf(r.2.value)) else None
  }

  /**
   The first operation that cannot be made decides. One that is refused by itself gives its own code, one whose told tree
   is not valid gives Internal, and nothing more is sent. If the device refuses the told tree the stored configuration is
   sent again, and the answer is Aborted if the device takes it and Internal if not. After all operations an invalid
   tree gives Internal. The stored configuration never changes.
   */
  lemma {:induction false} SetFails(m: Model, device: Option<Behaviour>, config: Members, req: Request, held: Members, sent: seq<Members>, ts: seq<Members>)
    requires ts != [] && ts[0] == config && Chain(m, device, req.prefix, req.Operations(), ts, sent)
    ensures |ts| <= |req.Operations()| + 1
    ensures var os, i, t := req.Operations(), |ts| - 1, ts[|ts| - 1];
      var r := SetRequest(m, device, config, req, held, sent);
      var before := SentAlong(m, device, req.prefix, os, ts, sent);
      if i == |os| then !m.valid(t) ==> Answer(r) == Some(Internal) && r.0 == config && r.1.sent == before
      else match EditTree(m, req.prefix, os[i], t)
        case Err(code) => Answer(r) == Some(code) && r.0 == config && r.1.sent == before
        case Ok(t') =>
          IsTold(m, req.prefix, os[i], t) ==>
            && (!m.valid(t') ==> Answer(r) == Some(Internal) && r.0 == config && r.1.sent == before)
            && (m.valid(t') && device.Some? && device.value(before, t').Fails? ==>
                  && r.0 == config && r.1.sent == before + [t', config]
                  && Answer(r) == Some(if device.value(before + [t'], config) == Takes then Aborted else Internal))
  {
    var os, i := req.Operations(), |ts| - 1;
    var w' := AlongChain(m, device, config, req.prefix, os, ts, World(config, held, sent));
    hide Chain, ToldTrees, EditTree, IsTold, Request.Operations;
    if i < |os| {
      assert os[i..][0] == os[i];
      assert w'.sent + [config] == w'.sent + [config];
    }
  }

  // ---- What the device is sent ----

  /** The device's answer to the j-th configuration it was sent. */
  function AnswerTo(device: Behaviour, sent: seq<Members>, j: nat): Reply
    requires j < |sent|
  {
    device(sent[..j], sent[j])
  }

  /** The first configuration the device refused of those it was sent after the first n. */
  ghost predicate FirstRefused(device: Behaviour, sent: seq<Members>, n: nat, j: nat) {
    n <= j < |sent| && AnswerTo(device, sent, j).Fails? && forall i :: n <= i < j ==> AnswerTo(device, sent, i) == Takes
  }

  /** What follows a refusal: the stored configuration is sent, nothing after it, and the answer says how that went. */
  ghost predicate RolledBackAt(device: Behaviour, config: Members, w: World, f: Option<Failure>, j: nat) {
    && |w.sent| == j + 2 && w.sent[j + 1] == config && f.Some?
    && match device(w.sent[..j + 1], config)
       case Takes => StatusOf(f.value) == Aborted && w.held == config
       case Fails(left) => StatusOf(f.value) == Internal && w.held == left
  }

  lemma {:induction false} OneSent(m: Model, device: Behaviour, config: Members, prefix: GnmiPath, o: Operation, w: World)
    ensures var (w', f) := Perform(m, Some(device), config, prefix, o, w);
      && w.sent <= w'.sent
      && (f == None ==> forall i :: |w.sent| <= i < |w'.sent| ==> AnswerTo(device, w'.sent, i) == Takes)
      && (f.Some? ==> forall j :: FirstRefused(device, w'.sent, |w.sent|, j) ==> RolledBackAt(device, config, w', f, j))
      && (f.Some? && w'.sent == w.sent ==> f.value.Refused?)
      && (f.Some? && w'.sent != w.sent ==> FirstRefused(device, w'.sent, |w.sent|, |w.sent|))
  {
    hide EditTree, IsTold;
    var (w', f) := Perform(m, Some(device), config, prefix, o, w);
    if EditTree(m, prefix, o, w.tree).Ok? {
      var t := EditTree(m, prefix, o, w.tree).value;
      var one, two := w.sent + [t], w.sent + [t] + [config];
      assert one[..|w.sent|] == w.sent && two[..|w.sent|] == w.sent && two[..|w.sent| + 1] == one;
      if f.Some? && !f.value.Refused? {
        assert w'.sent == two && AnswerTo(device, two, |w.sent|) == device(w.sent, t);
        forall j | FirstRefused(device, two, |w.sent|, j) ensures j == |w.sent| {
        }
        assert RolledBackAt(device, config, w', f, |w.sent|);
      }
    }
  }

  lemma {:induction false} AllSent(m: Model, device: Behaviour, config: Members, prefix: GnmiPath, os: seq<Operation>, w: World)
    ensures var (w', f) := PerformAll(m, Some(device), config, prefix, os, w);
      && w.sent <= w'.sent
      && (f == None ==> forall i :: |w.sent| <= i < |w'.sent| ==> AnswerTo(device, w'.sent, i) == Takes)
      && (forall j :: FirstRefused(device, w'.sent, |w.sent|, j) ==> RolledBackAt(device, config, w', f, j))
      && (f.Some? && !f.value.Refused? ==> exists j :: FirstRefused(device, w'.sent, |w.sent|, j))
    decreases |os|
  {
    if os != [] {
      hide Perform, RolledBackAt, AnswerTo;
      OneSent(m, device, config, prefix, os[0], w);
      var (w1, f1) := Perform(m, Some(device), config, prefix, os[0], w);
      if f1 == None {
        AllSent(m, device, config, prefix, os[1..], w1);
        var (w', f) := PerformAll(m, Some(device), config, prefix, os[1..], w1);
        forall i | |w.sent| <= i < |w1.sent| ensures AnswerTo(device, w'.sent, i) == Takes {
          SamePast(device, w1.sent, w'.sent, i);
        }
        forall j | FirstRefused(device, w'.sent, |w.sent|, j) ensures FirstRefused(device, w'.sent, |w1.sent|, j) {
        }
        if j :| FirstRefused(device, w'.sent, |w1.sent|, j) {
          assert FirstRefused(device, w'.sent, |w.sent|, j);
        }
      }
    }
  }

  lemma {:induction false} SamePast(device: Behaviour, a: seq<Members>, b: seq<Members>, i: nat)
    requires a <= b && i < |a|
    ensures AnswerTo(device, a, i) == AnswerTo(device, b, i)
  {
    assert a[..i] == b[..i];
  }

  /**
   A configuration the device refuses is the last but one it is sent: the stored one is sent after it. The answer is Aborted
   exactly if some configuration was refused and the device then took the stored one, unless decoding a value answers so.
   */
  lemma {:induction false} RefusedIsRolledBack(m: Model, device: Behaviour, config: Members, req: Request, held: Members, sent: seq<Members>)
    ensures var (config', w, f) := SetRequest(m, Some(device), config, req, held, sent);
      && sent <= w.sent
      && (f == None ==> forall j :: |sent| <= j < |w.sent| ==> AnswerTo(device, w.sent, j) == Takes)
      && (forall j :: FirstRefused(device, w.sent, |sent|, j) ==> config' == config && RolledBackAt(device, config, w, f, j))
    ensures var r := SetRequest(m, Some(device), config, req, held, sent);
      (forall p, raw :: m.decode(p, raw) != Err(Aborted)) ==>
        (Answer(r) == Some(Aborted) <==>
           exists j :: FirstRefused(device, r.1.sent, |sent|, j) && device(r.1.sent[..j + 1], config) == Takes)
  {
    hide PerformAll, AnswerTo;
    var w0 := World(config, held, sent);
    AllSent(m, device, config, req.prefix, req.Operations(), w0);
    var r := SetRequest(m, Some(device), config, req, held, sent);
    if forall p, raw :: m.decode(p, raw) != Err(Aborted) {
      AbortedMeansRolledBack(m, Some(device), config, req.prefix, req.Operations(), w0);
      if Answer(r) == Some(Aborted) {
        var j :| FirstRefused(device, r.1.sent, |sent|, j);
      }
    }
  }

  // ---- The root ----

  /** An update of the root whose value decodes is refused as unimplemented, and a request that holds one stores nothing. */
  lemma {:induction false} RootUpdateIsRefused(m: Model, device: Option<Behaviour>, config: Members, req: Request, held: Members, sent: seq<Members>, i: nat)
    requires i < |req.updates| && req.updates[i].0 == GnmiPath("", []) && m.decode([], req.updates[i].1).Ok?
    ensures var r := SetRequest(m, device, config, req, held, sent);
      && r.2.Some? && r.0 == config
      && forall ts | |ts| == |req.deletes| + |req.replacements| + i + 1 && ts[0] == config && Chain(m, device, req.prefix, req.Operations(), ts, sent)
           :: Answer(r) == Some(Unimplemented)
  {
    var os, n := req.Operations(), |req.deletes| + |req.replacements| + i;
    assert os[n] == SetValue(Update, req.updates[i].0, req.updates[i].1);
    hide Chain, PerformAll, Request.Operations;
    assert forall t :: EditTree(m, req.prefix, os[n], t) == Err(Unimplemented);
    SetSucceeds(m, device, config, req, held, sent);
    SuccessStoresTheEdits(m, device, config, req, held, sent);
    forall ts | |ts| == n + 1 && ts[0] == config && Chain(m, device, req.prefix, os, ts, sent)
      ensures Answer(SetRequest(m, device, config, req, held, sent)) == Some(Unimplemented) {
      SetFails(m, device, config, req, held, sent, ts);
    }
    if ts :| Trees(m, device, config, req, sent, ts) {
      ChainStep(m, device, req.prefix, os, ts, sent, n);
    }
  }

  /** Every operation of a chain is made. */
  lemma {:induction false} ChainStep(m: Model, device: Option<Behaviour>, prefix: GnmiPath, os: seq<Operation>, ts: seq<Members>, sent: seq<Members>, i: nat)
    requires Chain(m, device, prefix, os, ts, sent) && i + 1 < |ts|
    ensures |ts| <= |os| + 1 && EditTree(m, prefix, os[i], ts[i]) == Ok(ts[i + 1])
    decreases |ts|
  {
    hide EditTree, IsTold;
    if i > 0 {
      ChainStep(m, device, prefix, os[1..], ts[1..], sent + Telling(m, prefix, os[0], ts[0], ts[1]), i - 1);
    } else {
      ChainLength(m, device, prefix, os, ts, sent);
    }
  }

  lemma {:induction false} ChainLength(m: Model, device: Option<Behaviour>, prefix: GnmiPath, os: seq<Operation>, ts: seq<Members>, sent: seq<Members>)
    requires Chain(m, device, prefix, os, ts, sent)
    ensures |ts| <= |os| + 1
    decreases |ts|
  {
    if |ts| > 1 {
      ChainLength(m, device, prefix, os[1..], ts[1..], sent + Telling(m, prefix, os[0], ts[0], ts[1]));
    }
  }

  lemma {:induction false} OnlyOperation(m: Model, device: Option<Behaviour>, config: Members, prefix: GnmiPath, o: Operation, w: World)
    ensures PerformAll(m, device, config, prefix, [o], w) == Perform(m, device, config, prefix, o, w)
  {
    hide Perform;
    assert [o][1..] == [];
  }

  /** A request that replaces the root by an object stores exactly that object, if it is valid and the device takes it. */
  lemma {:induction false} RootReplaceStoresTheValue(m: Model, device: Option<Behaviour>, config: Members, prefix: GnmiPath, raw: string, ms: Members, held: Members, sent: seq<Members>)
    requires m.decode([], raw) == Ok(Object(ms))
    ensures var (config', w, f) := SetRequest(m, device, config, Request(prefix, [], [(GnmiPath("", []), raw)], []), held, sent);
      && (f == None <==> m.valid(ms) && (device.Some? ==> device.value(sent, ms) == Takes))
      && (f == None ==> config' == ms && (device.Some? ==> w.sent == sent + [ms] && w.held == ms))
  {
    var req := Request(prefix, [], [(GnmiPath("", []), raw)], []);
    assert req.Operations() == [SetValue(Replace, GnmiPath("", []), raw)];
    OnlyOperation(m, device, config, prefix, SetValue(Replace, GnmiPath("", []), raw), World(config, held, sent));
  }

  /** A request that deletes the root stores the empty configuration, if that is valid, and sends the device nothing. */
  lemma {:induction false} RootDeleteStoresNothing(m: Model, device: Option<Behaviour>, config: Members, prefix: GnmiPath, held: Members, sent: seq<Members>)
    ensures var (config', w, f) := SetRequest(m, device, config, Request(prefix, [GnmiPath("", [])], [], []), held, sent);
      (f == None <==> m.valid(map[])) && (f == None ==> config' == map[]) && w.sent == sent && w.held == held
  {
    var req := Request(prefix, [GnmiPath("", [])], [], []);
    assert req.Operations() == [DeletePath(GnmiPath("", []))];
    OnlyOperation(m, device, config, prefix, DeletePath(GnmiPath("", [])), World(config, held, sent));
  }
}
