/** The VLAN interface script: it collects the cluster ids, fetches a cluster's network
    configuration, derives one `ifcfg-eth0.<vlan>` file per matching /24 network, records the
    names of the files it writes, and builds the commands that delete them again. The HTTP
    calls return their JSON as parameters; the files written are a map from name to content. */
module NetworkConfiguration {
  import opened Common
  import opened Text

  const Uri: string := "http://127.0.0.1:8000/api/"

  /** One entry of a configuration's `networks` list. */
  datatype Network = Network(name: string, vlanStart: Option<int>, cidr: string, netmask: string)

  /** An entry of `network_setting_json`: the empty dict it starts with, or a configuration. */
  datatype Setting = EmptyDict | NetConfig(networks: seq<Network>)

  datatype VlanFile = VlanFile(name: string, content: string)

  /** What one network of the inner loop leads to. */
  datatype VlanStep =
    | NotMatched          // another network name
    | NotSlash24          // matched, but the CIDR is not a /24
    | IndexError          // matched and /24, but fewer than three dot-separated fields
    | Write(file: VlanFile)

  /** The URL of a cluster's network configuration. */
  function ClusterUrl(id: int): string
  {
    Uri + "clusters/" + IntToString(id) + "/network_configuration/"
  }

  /** `str(vlan_start)`: a missing VLAN prints as `None`. */
  function VlanText(v: Option<int>): string
  {
    if v.None? then "None" else IntToString(v.value)
  }

  /** The CIDR test: the text after the last `/` of the last dot-separated field is "24". */
  predicate IsSlash24(cidr: string) {
    LastField(LastField(cidr, '.'), '/') == "24"
  }

  /** The address `%s.%s.%s.253` built from the first three fields of a CIDR. */
  function Address(fields: seq<string>): string
    requires |fields| >= 3
  {
    Join(fields[..3] + ["253"], ".")
  }

  function FileName(v: Option<int>): string
  {
    "ifcfg-eth0." + VlanText(v)
  }

  /** The seven lines of an interface file. */
  function Lines(vlan: string, ip: string, mask: string): seq<string>
  {
    ["DEVICE=eth0." + vlan, "IPADDR=" + ip, "NETMASK=" + mask,
     "BOOTPROTO=none", "ONBOOT=yes", "USERCTL=no", "VLAN=yes"]
  }

  /** The file's text: each line ended by a newline. */
  function Content(vlan: string, ip: string, mask: string): string
  {
    Join(Lines(vlan, ip, mask) + [""], "\n")
  }

  /** The body of the inner loop for networks named `kind`. */
  function Step(n: Network, kind: string): (r: VlanStep)
    ensures r.NotMatched? <==> n.name != kind
    ensures r.NotSlash24? <==> n.name == kind && !IsSlash24(n.cidr)
    ensures r.IndexError? <==> n.name == kind && IsSlash24(n.cidr) && |Split(n.cidr, '.')| < 3
    ensures r.Write? ==> (r.file.name == FileName(n.vlanStart)
      && r.file.content == Content(VlanText(n.vlanStart), Address(Split(n.cidr, '.')), n.netmask))
  {
    if n.name != kind then NotMatched
    else
      var fields := Split(n.cidr, '.');
      if LastField(fields[|fields| - 1], '/') != "24" then NotSlash24
      else if |fields| < 3 then IndexError
      else Write(VlanFile(FileName(n.vlanStart), Content(VlanText(n.vlanStart), Address(fields), n.netmask)))
  }

  /** An accepted CIDR ends in "24". */
  lemma Slash24EndsIn24(cidr: string)
    requires IsSlash24(cidr)
    ensures |cidr| >= 2 && cidr[|cidr| - 2..] == "24"
  {
    var last := LastField(cidr, '.');
    LastFieldIsTail(cidr, '.');
    LastFieldIsTail(last, '/');
    assert cidr[|cidr| - |last|..] == last;
    assert cidr[|cidr| - 2..] == last[|last| - 2..];
  }

  /** The derived address keeps the first three fields of the CIDR and ends in 253. */
  lemma AddressFields(fields: seq<string>)
    requires |fields| >= 3 && forall k :: 0 <= k < |fields| ==> '.' !in fields[k]
    ensures Split(Address(fields), '.') == fields[..3] + ["253"]
  {
    JoinSplit(fields[..3] + ["253"], '.');
  }

  /** An interface file has exactly the seven lines, each ended by a newline. */
  lemma ContentLines(vlan: string, ip: string, mask: string)
    requires '\n' !in vlan && '\n' !in ip && '\n' !in mask
    ensures Split(Content(vlan, ip, mask), '\n') == Lines(vlan, ip, mask) + [""]
  {
    var ls := Lines(vlan, ip, mask) + [""];
    PrefixedHasNo("DEVICE=eth0.", vlan, '\n');
    PrefixedHasNo("IPADDR=", ip, '\n');
    PrefixedHasNo("NETMASK=", mask, '\n');
    JoinSplit(ls, '\n');
  }

  lemma PrefixedHasNo(p: string, s: string, c: char)
    requires c !in p && c !in s
    ensures c !in p + s
  {
    assert forall k :: 0 <= k < |p + s| ==> (p + s)[k] == if k < |p| then p[k] else s[k - |p|];
  }

  /** Distinct VLAN ids give distinct file names. */
  lemma FileNamesDistinct(v: int, w: int)
    requires v != w
    ensures FileName(Some(v)) != FileName(Some(w))
  {
    if FileName(Some(v)) == FileName(Some(w)) {
      assert FileName(Some(v))[11..] == IntToString(v);
      assert FileName(Some(w))[11..] == IntToString(w);
      IntToStringInjective(v, w);
    }
  }

  // ---------------------------------------------------------------- the whole traversal

  /** The networks the loops visit: those of every non-empty entry, in order. */
  function NetworksOf(settings: seq<Setting>): seq<Network>
  {
    if |settings| == 0 then []
    else
      var last := settings[|settings| - 1];
      NetworksOf(settings[..|settings| - 1]) + (if last.EmptyDict? then [] else last.networks)
  }

  lemma {:induction false} NetworksOfAppend(a: seq<Setting>, b: seq<Setting>)
    ensures NetworksOf(a + b) == NetworksOf(a) + NetworksOf(b)
    decreases |b|
  {
    if |b| == 0 {
      assert a + b == a;
    } else {
      var b' := b[..|b| - 1];
      assert (a + b)[..|a + b| - 1] == a + b';
      NetworksOfAppend(a, b');
    }
  }

  /** The files written, in order, and whether an `IndexError` stopped the traversal. */
  datatype Plan = Plan(files: seq<VlanFile>, failed: bool)

  /** The result of visiting `nets` for networks named `kind`. */
  function PlanOf(nets: seq<Network>, kind: string): Plan
  {
    if |nets| == 0 then Plan([], false)
    else
      var p := PlanOf(nets[..|nets| - 1], kind);
      if p.failed then p
      else
        match Step(nets[|nets| - 1], kind)
        case IndexError => Plan(p.files, true)
        case Write(f) => Plan(p.files + [f], false)
        case _ => p
  }

  /** Every file written is the `Write` of one of the networks visited. */
  lemma {:induction false} PlanFilesFromSteps(nets: seq<Network>, kind: string)
    ensures |PlanOf(nets, kind).files| <= |nets|
    ensures forall k :: 0 <= k < |PlanOf(nets, kind).files| ==>
      exists i :: 0 <= i < |nets| && Step(nets[i], kind) == Write(PlanOf(nets, kind).files[k])
  {
    if |nets| > 0 {
      var front := nets[..|nets| - 1];
      PlanFilesFromSteps(front, kind);
      assert forall i :: 0 <= i < |front| ==> front[i] == nets[i];
    }
  }

  /** Once an `IndexError` is raised nothing more is visited. */
  lemma {:induction false} PlanStopsAtFailure(a: seq<Network>, b: seq<Network>, kind: string)
    requires PlanOf(a, kind).failed
    ensures PlanOf(a + b, kind) == PlanOf(a, kind)
    decreases |b|
  {
    if |b| == 0 {
      assert a + b == a;
    } else {
      var b' := b[..|b| - 1];
      assert (a + b)[..|a + b| - 1] == a + b';
      PlanStopsAtFailure(a, b', kind);
    }
  }

  /** Networks of other names, and networks that are not /24, add nothing. */
  lemma {:induction false} PlanOnlyMatching(nets: seq<Network>, kind: string)
    requires forall i :: 0 <= i < |nets| ==> nets[i].name != kind || !IsSlash24(nets[i].cidr)
    ensures PlanOf(nets, kind) == Plan([], false)
  {
    if |nets| > 0 {
      PlanOnlyMatching(nets[..|nets| - 1], kind);
    }
  }

  /** The names of `fs`, in order. */
  function Names(fs: seq<VlanFile>): (r: seq<string>)
    ensures |r| == |fs| && forall k :: 0 <= k < |fs| ==> r[k] == fs[k].name
  {
    if |fs| == 0 then [] else Names(fs[..|fs| - 1]) + [fs[|fs| - 1].name]
  }

  /** The file system after writing `fs` in order: a later write of a name replaces an earlier one. */
  function Written(m: map<string, string>, fs: seq<VlanFile>): map<string, string>
  {
    if |fs| == 0 then m
    else Written(m, fs[..|fs| - 1])[fs[|fs| - 1].name := fs[|fs| - 1].content]
  }

  /** After the writes, the files are the old ones plus every name written. */
  lemma {:induction false} WrittenKeys(m: map<string, string>, fs: seq<VlanFile>)
    ensures Written(m, fs).Keys == m.Keys + set k | 0 <= k < |fs| :: fs[k].name
  {
    if |fs| > 0 {
      var front := fs[..|fs| - 1];
      WrittenKeys(m, front);
      assert (set k | 0 <= k < |fs| :: fs[k].name) == (set k | 0 <= k < |front| :: front[k].name) + {fs[|fs| - 1].name};
    }
  }

  /** A file that no write names keeps its content. */
  lemma {:induction false} WrittenUntouched(m: map<string, string>, fs: seq<VlanFile>, n: string)
    requires n in m && forall k :: 0 <= k < |fs| ==> fs[k].name != n
    ensures n in Written(m, fs) && Written(m, fs)[n] == m[n]
  {
    if |fs| > 0 {
      WrittenUntouched(m, fs[..|fs| - 1], n);
    }
  }

  /** Each name holds the content of its last write. */
  lemma {:induction false} WrittenLast(m: map<string, string>, fs: seq<VlanFile>, k: nat)
    requires k < |fs| && forall l :: k < l < |fs| ==> fs[l].name != fs[k].name
    ensures fs[k].name in Written(m, fs) && Written(m, fs)[fs[k].name] == fs[k].content
  {
    if k < |fs| - 1 {
      var front := fs[..|fs| - 1];
      WrittenLast(m, front, k);
    }
  }

  /** A traversal that fails within the first `i + 1` entries ends there. */
  lemma FailureIsFinal(settings: seq<Setting>, i: nat, kind: string)
    requires i < |settings| && PlanOf(NetworksOf(settings[..i + 1]), kind).failed
    ensures PlanOf(NetworksOf(settings), kind) == PlanOf(NetworksOf(settings[..i + 1]), kind)
  {
    NetworksOfAppend(settings[..i + 1], settings[i + 1..]);
    assert settings[..i + 1] + settings[i + 1..] == settings;
    PlanStopsAtFailure(NetworksOf(settings[..i + 1]), NetworksOf(settings[i + 1..]), kind);
  }

  /** Visit one more network: a traversal that has not failed takes that network's step. */
  method Visit(p0: Plan, ghost before: seq<Network>, n: Network, kind: string) returns (p: Plan)
    requires p0 == PlanOf(before, kind) && !p0.failed
    ensures p == PlanOf(before + [n], kind)
  {
    assert (before + [n])[..|before|] == before;
    var step := Step(n, kind);
    if step.IndexError? {
      p := Plan(p0.files, true);
    } else if step.Write? {
      p := Plan(p0.files + [step.file], false);
    } else {
      p := p0;
    }
  }

  /** The inner loop over one entry's networks, continuing a traversal that has visited
      `done`; it stops at the first `IndexError`. */
  method PlanNetworks(p0: Plan, ghost done: seq<Network>, nets: seq<Network>, kind: string) returns (p: Plan)
    requires p0 == PlanOf(done, kind) && !p0.failed
    ensures p == PlanOf(done + nets, kind)
  {
    p := p0;
    assert done + nets[..0] == done;
    for j := 0 to |nets|
      invariant p == PlanOf(done + nets[..j], kind) && !p.failed
    {
      PrefixSnoc(done, nets, j);
      p := Visit(p, done + nets[..j], nets[j], kind);
      if p.failed {
        PlanStopsAtFailure(done + nets[..j + 1], nets[j + 1..], kind);
        CutAfter(done, nets, j);
        return;
      }
    }
    assert nets[..|nets|] == nets;
  }

  /** The traversal of the three `create_*_vlans` functions: every network of every non-empty
      entry, in order, stopping at the first `IndexError`. */
  method PlanVlans(settings: seq<Setting>, kind: string) returns (p: Plan)
    ensures p == PlanOf(NetworksOf(settings), kind)
  {
    p := Plan([], false);
    for i := 0 to |settings|
      invariant p == PlanOf(NetworksOf(settings[..i]), kind) && !p.failed
    {
      assert settings[..i + 1][..i] == settings[..i];
      var el := settings[i];
      assert NetworksOf(settings[..i + 1])
        == NetworksOf(settings[..i]) + (if el.EmptyDict? then [] else el.networks);
      if el.EmptyDict? {
        assert NetworksOf(settings[..i]) + [] == NetworksOf(settings[..i]);
      } else {
        p := PlanNetworks(p, NetworksOf(settings[..i]), el.networks, kind);
        if p.failed {
          FailureIsFinal(settings, i, kind);
          return;
        }
      }
    }
    assert settings[..|settings|] == settings;
  }

  // ---------------------------------------------------------------- delete commands

  /** The delete command as the script builds it: no space between the option and the name. */
  function DeleteCommandAsWritten(name: string): string
  {
    "rm -rf" + name
  }

  /** The delete command as intended: `rm`, the options, and the name as operand. */
  function DeleteCommand(name: string): string
  {
    Join(["rm", "-rf", name], " ")
  }

  /** As written, the shell sees one argument, an option cluster that swallows the name, and
      no file operand at all. */
  lemma DeleteCommandAsWrittenHasNoOperand(name: string)
    requires ' ' !in name
    ensures Split(DeleteCommandAsWritten(name), ' ') == ["rm", "-rf" + name]
    ensures DeleteCommandAsWritten("ifcfg-eth0.100") == "rm -rfifcfg-eth0.100"
  {
    assert "-rf" + name == "-" + "rf" + name;
    assert ' ' !in "-rf" + name;
    SplitNone("-rf" + name, ' ');
    SplitCons("rm", ' ', "-rf" + name);
    assert DeleteCommandAsWritten(name) == "rm" + [' '] + ("-rf" + name);
  }

  /** The intended command is the one the script builds, with the missing space restored. */
  lemma DeleteCommandText(name: string)
    ensures DeleteCommand(name) == "rm -rf " + name
  {
    assert Join([name], " ") == name;
    assert Join(["-rf", name], " ") == "-rf" + " " + name;
  }

  /** The intended command passes the name as the only operand. */
  lemma DeleteCommandWords(name: string)
    requires ' ' !in name
    ensures Split(DeleteCommand(name), ' ') == ["rm", "-rf", name]
  {
    JoinSplit(["rm", "-rf", name], ' ');
  }

  /** The names the script writes never hold a space, so each one is a single operand. */
  lemma FileNameHasNoSpace(v: Option<int>)
    ensures ' ' !in FileName(v)
  {
    var t := VlanText(v);
    assert forall k :: 0 <= k < |t| ==> t[k] != ' ';
    assert forall k :: 0 <= k < |FileName(v)| ==> FileName(v)[k] != ' ' by {
      forall k | 0 <= k < |FileName(v)|
        ensures FileName(v)[k] != ' '
      {
        if k >= 11 {
          assert FileName(v)[k] == t[k - 11];
        }
      }
    }
  }

  // ---------------------------------------------------------------- the script's state

  /** The module-level lists of the script and the interface files it has written. */
  class VlanScript {
    var clustersIds: seq<int>
    var networkSettingJson: seq<Setting>
    var createdVlansList: seq<string>
    var files: map<string, string>

    /** The state at import: the settings list holds one empty dict. */
    constructor ()
      ensures clustersIds == [] && networkSettingJson == [EmptyDict] && createdVlansList == [] && files == map[]
    {
      clustersIds := [];
      networkSettingJson := [EmptyDict];
      createdVlansList := [];
      files := map[];
    }

    /** `get_clusters`: append the id of every cluster in the response, in order. */
    method GetClusters(response: seq<int>) returns (ids: seq<int>)
      modifies this
      ensures clustersIds == old(clustersIds) + response && ids == clustersIds
      ensures networkSettingJson == old(networkSettingJson) && createdVlansList == old(createdVlansList)
      ensures files == old(files)
    {
      for i := 0 to |response|
        invariant clustersIds == old(clustersIds) + response[..i]
        invariant networkSettingJson == old(networkSettingJson) && createdVlansList == old(createdVlansList)
        invariant files == old(files)
      {
        assert response[..i + 1] == response[..i] + [response[i]];
        clustersIds := clustersIds + [response[i]];
      }
      assert response[..|response|] == response;
      ids := clustersIds;
    }

    /** `get_cluster_data`: collect the cluster ids, then fetch the configuration of the first
        recorded cluster only, since the loop returns after its first pass. `fetched` is the
        configuration the request returns; `url` is the address requested. */
    method GetClusterData(response: seq<int>, fetched: Setting) returns (r: Option<seq<Setting>>, url: Option<string>)
      modifies this
      ensures clustersIds == old(clustersIds) + response
      ensures |clustersIds| == 0 ==> r.None? && url.None? && networkSettingJson == old(networkSettingJson)
      ensures |clustersIds| > 0 ==>
        url == Some(ClusterUrl(clustersIds[0]))
        && networkSettingJson == old(networkSettingJson) + [fetched]
        && r == Some(networkSettingJson)
      ensures createdVlansList == old(createdVlansList) && files == old(files)
    {
      var _ := GetClusters(response);
      r, url := None, None;
      if |clustersIds| > 0 {
        url := Some(ClusterUrl(clustersIds[0]));
        networkSettingJson := networkSettingJson + [fetched];
        r := Some(networkSettingJson);
      }
    }

    /** `create_management_vlans`, `create_vm_vlans` and `create_storage_vlans` (`kind` is
        "management", "fixed" or "storage"): write one interface file per matching /24 network
        and record its name; an `IndexError` stops the traversal, keeping what was written. */
    method CreateVlans(kind: string) returns (failed: bool)
      modifies this
      ensures var p := PlanOf(NetworksOf(networkSettingJson), kind);
        createdVlansList == old(createdVlansList) + Names(p.files)
        && files == Written(old(files), p.files)
        && failed == p.failed
      ensures clustersIds == old(clustersIds) && networkSettingJson == old(networkSettingJson)
    {
      var p := PlanVlans(networkSettingJson, kind);
      for k := 0 to |p.files|
        invariant createdVlansList == old(createdVlansList) + Names(p.files[..k])
        invariant files == Written(old(files), p.files[..k])
        invariant clustersIds == old(clustersIds) && networkSettingJson == old(networkSettingJson)
      {
        ghost var fs := p.files[..k + 1];
        assert fs[..k] == p.files[..k] && fs[k] == p.files[k];
        WriteFile(p.files[k]);
      }
      assert p.files[..|p.files|] == p.files;
      failed := p.failed;
    }

    /** Write one interface file and record its name. */
    method WriteFile(f: VlanFile)
      modifies this
      ensures files == old(files)[f.name := f.content]
      ensures createdVlansList == old(createdVlansList) + [f.name]
      ensures clustersIds == old(clustersIds) && networkSettingJson == old(networkSettingJson)
    {
      files := files[f.name := f.content];
      createdVlansList := createdVlansList + [f.name];
    }

    /** The commands that remove the recorded files, one per name, in order. */
    method DeleteCreatedVlans() returns (commands: seq<string>)
      ensures |commands| == |createdVlansList|
      ensures forall k :: 0 <= k < |commands| ==> commands[k] == DeleteCommand(createdVlansList[k])
    {
      commands := [];
      for i := 0 to |createdVlansList|
        invariant |commands| == i
        invariant forall k :: 0 <= k < i ==> commands[k] == DeleteCommand(createdVlansList[k])
      {
        commands := commands + [DeleteCommand(createdVlansList[i])];
      }
    }
  }
}
