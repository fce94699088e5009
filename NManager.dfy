/** The fixture helpers of the OpenStack test base classes: credential defaulting, the nano
    flavor, teardown of the shared resources, volume cleanup, the server re-fetch loop, error
    classification, the image lookup and the ssh timeout floor. Every SDK call is replaced by
    the list it returns or the exception it raises. */
module NManager {
  import opened Common
  import opened Text

  /** An exception instance; the code only ever looks at its class name. */
  datatype Exc = Exc(className: string)

  const NotFound: string := "NotFound"
  const AttributeError: Exc := Exc("AttributeError")

  // ---------------------------------------------------------------- credentials

  datatype Credentials = Credentials(username: Option<string>, password: Option<string>, tenantName: Option<string>)

  datatype ConfigError = InvalidConfiguration(message: string)

  const NoCredentials: Credentials := Credentials(None, None, None)

  /** A falsy argument falls back to the configured value. */
  function Defaulted(given: Option<string>, configured: Option<string>): Option<string>
  {
    if Falsy(given) then configured else given
  }

  /** `%s` of an optional string: Python prints `None` for a missing value. */
  function Show(v: Option<string>): string
  {
    if v.None? then "None" else v.value
  }

  function MissingMessage(kind: string, c: Credentials): string
  {
    "Missing required credentials for " + kind + " client. username: " + Show(c.username)
    + ", password: " + Show(c.password) + ", tenant_name: " + Show(c.tenantName)
  }

  /** Raises when one of the three values is `None`. */
  function CheckPresent(kind: string, c: Credentials): Result<Credentials, ConfigError>
  {
    if c.username.None? || c.password.None? || c.tenantName.None? then
      Err(InvalidConfiguration(MissingMessage(kind, c)))
    else
      Ok(c)
  }

  /** The check of `_get_compute_client` and `_get_identity_client` (`kind` is "compute" or
      "identity"): each falsy argument is replaced by the configured admin value, and a value
      still missing raises `InvalidConfiguration` naming all three. */
  function ResolveCredentials(kind: string, given: Credentials, config: Credentials): (r: Result<Credentials, ConfigError>)
    ensures r.Err? <==> ((Falsy(given.username) && config.username.None?)
                      || (Falsy(given.password) && config.password.None?)
                      || (Falsy(given.tenantName) && config.tenantName.None?))
    ensures r.Ok? ==> ((!Falsy(given.username) ==> r.value.username == given.username)
                    && (Falsy(given.username) ==> r.value.username == config.username)
                    && (!Falsy(given.password) ==> r.value.password == given.password)
                    && (Falsy(given.password) ==> r.value.password == config.password)
                    && (!Falsy(given.tenantName) ==> r.value.tenantName == given.tenantName)
                    && (Falsy(given.tenantName) ==> r.value.tenantName == config.tenantName))
  {
    CheckPresent(kind, Credentials(Defaulted(given.username, config.username),
                                   Defaulted(given.password, config.password),
                                   Defaulted(given.tenantName, config.tenantName)))
  }

  /** Non-empty arguments are used as they are, whatever the configuration holds. */
  lemma GivenCredentialsWin(kind: string, given: Credentials, config: Credentials)
    requires !Falsy(given.username) && !Falsy(given.password) && !Falsy(given.tenantName)
    ensures ResolveCredentials(kind, given, config) == Ok(given)
  {
  }

  /** Resolving resolved credentials again against the same configuration changes nothing. */
  lemma ResolveIdempotent(kind: string, given: Credentials, config: Credentials)
    requires ResolveCredentials(kind, given, config).Ok?
    ensures ResolveCredentials(kind, ResolveCredentials(kind, given, config).value, config)
         == ResolveCredentials(kind, given, config)
  {
  }

  /** `_get_network_client`: the configured values only are checked, in the same way, and
      no client is ever returned. */
  function NetworkClient(config: Credentials): (r: Result<Option<Credentials>, ConfigError>)
    ensures r.Ok? ==> r.value.None?
    ensures r.Err? <==> ResolveCredentials("network", NoCredentials, config).Err?
    ensures r.Err? ==> r.error == ResolveCredentials("network", NoCredentials, config).error
  {
    match CheckPresent("network", config)
    case Err(e) => Err(e)
    case Ok(_) => Ok(None)
  }

  // ---------------------------------------------------------------- nano flavor

  datatype Flavor = Flavor(id: string, name: string)

  /** What `_create_nano_flavor` returns: a listed flavor, or the one it asks the compute
      service to create with these arguments. */
  datatype FlavorPick =
    | Listed(flavor: Flavor)
    | Created(name: string, ram: nat, disk: nat, vcpus: nat, flavorId: int)

  const NanoRam: nat := 64
  const NanoDisk: nat := 1
  const NanoVcpus: nat := 1
  const NanoFlavorId: int := 42

  predicate IsNano(f: Flavor) {
    Contains(f.id, "42")
  }

  function PickName(p: FlavorPick): string
  {
    match p
    case Listed(f) => f.name
    case Created(name, _, _, _, _) => name
  }

  /** `_create_nano_flavor`: the first listed flavor whose id contains "42", else a new
      64 MB, 1 GB, 1 vCPU flavor with id 42; with no flavor listed at all, nothing. */
  function NanoFlavor(flavors: seq<Flavor>, name: string): (r: Option<FlavorPick>)
    ensures r.None? <==> |flavors| == 0
    ensures r.Some? && r.value.Listed? ==>
      exists i :: 0 <= i < |flavors| && flavors[i] == r.value.flavor && IsNano(flavors[i])
        && forall j :: 0 <= j < i ==> !IsNano(flavors[j])
    ensures r.Some? && r.value.Created? ==>
      r.value == Created(name, NanoRam, NanoDisk, NanoVcpus, NanoFlavorId)
      && forall i :: 0 <= i < |flavors| ==> !IsNano(flavors[i])
    ensures (exists i :: 0 <= i < |flavors| && IsNano(flavors[i])) ==> r.Some? && r.value.Listed?
  {
    if |flavors| == 0 then None
    else
      match FirstMatch(flavors, IsNano)
      case Some(i) => Some(Listed(flavors[i]))
      case None => Some(Created(name, NanoRam, NanoDisk, NanoVcpus, NanoFlavorId))
  }

  // ---------------------------------------------------------------- teardown

  /** One call of `is_deletion_complete` on an SDK object: `get` still finds it, or raises. */
  datatype Probe = StillThere | Raised(e: Exc)

  /** A shared resource: an SDK object, with the outcome of its `delete` and of the probes made
      while waiting for the deletion, or a plain dict, which has no `delete` method. */
  datatype Resource = SdkObject(deleteError: Option<Exc>, probes: seq<Probe>) | PlainDict

  /** The errors the deletion wait records: every probe error until a `NotFound` ends it. */
  function ProbeErrors(probes: seq<Probe>): (r: seq<Exc>)
    ensures forall k :: 0 <= k < |r| ==> r[k].className != NotFound
    ensures |r| <= |probes|
  {
    if |probes| == 0 then []
    else
      match probes[0]
      case StillThere => ProbeErrors(probes[1..])
      case Raised(e) => if e.className == NotFound then [] else [e] + ProbeErrors(probes[1..])
  }

  /** The errors recorded for one popped resource. A `NotFound` from `delete` skips the wait;
      a dict's `delete` raises `AttributeError`, and the wait accepts a dict at once. */
  function ResourceErrors(res: Resource): (r: seq<Exc>)
    ensures forall k :: 0 <= k < |r| ==> r[k].className != NotFound
  {
    match res
    case PlainDict => [AttributeError]
    case SdkObject(d, probes) =>
      if d.Some? && d.value.className == NotFound then [] else AsList(d) + ProbeErrors(probes)
  }

  /** The errors of popping `rs` from its end until it is empty. */
  function TeardownLog(rs: seq<Resource>): (r: seq<Exc>)
    ensures forall k :: 0 <= k < |r| ==> r[k].className != NotFound
  {
    if |rs| == 0 then [] else TeardownLog(rs[1..]) + ResourceErrors(rs[0])
  }

  /** Teardown is last-in first-out: the resources added later are handled, and their errors
      recorded, before those added earlier. */
  lemma {:induction false} TeardownLogReverses(a: seq<Resource>, b: seq<Resource>)
    ensures TeardownLog(a + b) == TeardownLog(b) + TeardownLog(a)
    decreases |a|
  {
    if |a| == 0 {
      assert a + b == b;
    } else {
      assert (a + b)[1..] == a[1..] + b;
      TeardownLogReverses(a[1..], b);
    }
  }

  /** Popping one more resource appends its errors to the log. */
  lemma TeardownStep(all: seq<Resource>, n: nat)
    requires 0 < n <= |all|
    ensures TeardownLog(all[n - 1..]) == TeardownLog(all[n..]) + ResourceErrors(all[n - 1])
  {
    assert all[n - 1..][1..] == all[n..];
  }

  datatype Volume = Volume(id: string, status: string, deleteError: Option<Exc>)

  predicate Deletable(v: Volume) {
    v.status == "available" || v.status == "error"
  }

  /** The errors raised by deleting `vs`, in order. */
  function DeleteErrors(vs: seq<Volume>): (r: seq<Exc>)
    ensures |r| <= |vs|
  {
    if |vs| == 0 then [] else DeleteErrors(vs[..|vs| - 1]) + AsList(vs[|vs| - 1].deleteError)
  }

  /** One pass of the teardown loop on a popped resource: its `delete`, then the wait for the
      deletion unless `delete` reported it already gone. Returns the errors recorded. */
  method DeleteResource(thing: Resource) returns (errs: seq<Exc>)
    ensures errs == ResourceErrors(thing)
  {
    errs := [];
    match thing
    case PlainDict =>
      errs := errs + [AttributeError];
    case SdkObject(d, probes) =>
      if d.Some? {
        if d.value.className == NotFound {
          return;
        }
        errs := errs + [d.value];
      }
      errs := errs + ProbeErrors(probes);
  }

  /** The class-level state of a test class: the shared resources, the volumes it created and
      the errors collected while cleaning up. */
  class Fixture {
    var osResources: seq<Resource>
    var volumes: seq<Volume>
    var errorMsg: seq<Exc>

    constructor (resources: seq<Resource>, vs: seq<Volume>)
      ensures osResources == resources && volumes == vs && errorMsg == []
    {
      osResources := resources;
      volumes := vs;
      errorMsg := [];
    }

    /** `tearDownClass`: reset the error list, delete flavor "42" (recording its error), then pop
        and delete every shared resource. */
    method TearDownClass(flavorDelete: Option<Exc>)
      modifies this
      ensures osResources == [] && volumes == old(volumes)
      ensures errorMsg == AsList(flavorDelete) + TeardownLog(old(osResources))
    {
      errorMsg := [];
      if flavorDelete.Some? {
        errorMsg := errorMsg + [flavorDelete.value];
      }
      ghost var all := osResources;
      ghost var k := |all|;
      assert all[k..] == [];
      while osResources != []
        invariant 0 <= k <= |all| && osResources == all[..k]
        invariant errorMsg == AsList(flavorDelete) + TeardownLog(all[k..])
        invariant volumes == old(volumes)
        decreases k
      {
        TeardownStep(all, k);
        PrefixShrink(all, k);
        AppendAssoc(AsList(flavorDelete), TeardownLog(all[k..]), ResourceErrors(all[k - 1]));
        PopAndDelete();
        k := k - 1;
      }
      assert all[k..] == all;
    }

    /** One pass of the teardown loop: pop the last resource and delete it. */
    method PopAndDelete()
      requires osResources != []
      modifies this
      ensures osResources == old(osResources[..|osResources| - 1])
      ensures errorMsg == old(errorMsg) + ResourceErrors(old(osResources[|osResources| - 1]))
      ensures volumes == old(volumes)
    {
      var thing := osResources[|osResources| - 1];
      osResources := osResources[..|osResources| - 1];
      var errs := DeleteResource(thing);
      errorMsg := errorMsg + errs;
    }

    /** `_clean_volumes`: only volumes in status "available" or "error" are deleted; each
        delete error is recorded. Returns the volumes whose deletion was requested. */
    method CleanVolumes() returns (deleted: seq<Volume>)
      modifies this
      ensures deleted == Filter(volumes, Deletable)
      ensures errorMsg == old(errorMsg) + DeleteErrors(deleted)
      ensures volumes == old(volumes) && osResources == old(osResources)
    {
      var errs;
      deleted, errs := DeleteVolumes(volumes);
      DeletedIsFilter(volumes);
      errorMsg := errorMsg + errs;
    }
  }

  /** The volumes `_clean_volumes` deletes, in order. */
  function Deleted(vs: seq<Volume>): seq<Volume>
  {
    if |vs| == 0 then []
    else Deleted(vs[..|vs| - 1]) + (if Deletable(vs[|vs| - 1]) then [vs[|vs| - 1]] else [])
  }

  /** The deleted volumes are exactly the deletable ones, in order. */
  lemma {:induction false} DeletedIsFilter(vs: seq<Volume>)
    ensures Deleted(vs) == Filter(vs, Deletable)
  {
    if |vs| > 0 {
      var front := vs[..|vs| - 1];
      DeletedIsFilter(front);
      FilterSnoc(front, vs[|vs| - 1], Deletable);
      assert front + [vs[|vs| - 1]] == vs;
    }
  }

  /** Looking at one more volume extends the deleted volumes by it when it is deletable. */
  lemma DeletedStep(vs: seq<Volume>, i: nat)
    requires i < |vs|
    ensures Deleted(vs[..i + 1]) == Deleted(vs[..i]) + (if Deletable(vs[i]) then [vs[i]] else [])
  {
    PrefixShrink(vs, i + 1);
  }

  /** Deleting one more volume appends its error, if it raised one. */
  lemma DeleteErrorsStep(ds: seq<Volume>, v: Volume)
    ensures DeleteErrors(ds + [v]) == DeleteErrors(ds) + AsList(v.deleteError)
  {
    assert (ds + [v])[..|ds|] == ds;
  }

  /** The loop of `_clean_volumes`: the volumes it deletes, in order, and the errors raised. */
  method DeleteVolumes(vs: seq<Volume>) returns (deleted: seq<Volume>, errs: seq<Exc>)
    ensures deleted == Deleted(vs)
    ensures errs == DeleteErrors(deleted)
  {
    deleted, errs := [], [];
    for i := 0 to |vs|
      invariant deleted == Deleted(vs[..i])
      invariant errs == DeleteErrors(deleted)
    {
      var v := vs[i];
      DeletedStep(vs, i);
      if Deletable(v) {
        DeleteErrorsStep(deleted, v);
        deleted := deleted + [v];
        if v.deleteError.Some? {
          errs := errs + [v.deleteError.value];
        }
      }
    }
    assert vs[..|vs|] == vs;
  }

  // ---------------------------------------------------------------- server re-fetch

  datatype Server = Server(id: string, attrs: map<string, string>)

  /** The attribute is set to a non-empty value and, when an expected value is given, equal to it. */
  predicate ParamReady(s: Server, name: string, expected: Option<string>) {
    name in s.attrs && s.attrs[name] != [] && (Falsy(expected) || expected.value == s.attrs[name])
  }

  /** The server `_wait_server_param` returns, and how many times it re-fetched it: the first of
      the server and its re-fetches that is ready, checking at most `tries` of them, else the
      last one fetched. */
  function WaitResult(server: Server, name: string, tries: nat, expected: Option<string>,
                      fetches: seq<Server>): (r: (Server, nat))
    requires tries <= |fetches|
    ensures r.1 <= tries && r.0 == ([server] + fetches)[r.1]
    ensures forall j :: 0 <= j < r.1 ==> !ParamReady(([server] + fetches)[j], name, expected)
    ensures r.1 < tries ==> ParamReady(r.0, name, expected)
  {
    var seen := [server] + fetches;
    match FirstMatch(seen[..tries], (s: Server) => ParamReady(s, name, expected))
    case Some(k) => (seen[k], k)
    case None => (seen[tries], tries)
  }

  /** A server that is ready from the start is returned without any re-fetch. */
  lemma WaitReadyAtOnce(server: Server, name: string, tries: nat, expected: Option<string>, fetches: seq<Server>)
    requires tries <= |fetches| && 0 < tries && ParamReady(server, name, expected)
    ensures WaitResult(server, name, tries, expected, fetches) == (server, 0)
  {
    assert ([server] + fetches)[0] == server;
  }

  /** `_wait_server_param`: re-fetch the server while it is not ready, at most `tries` times. */
  method WaitServerParam(server: Server, name: string, tries: nat, expected: Option<string>,
                         fetches: seq<Server>) returns (s: Server, fetched: nat)
    requires tries <= |fetches|
    ensures (s, fetched) == WaitResult(server, name, tries, expected, fetches)
  {
    var seen := [server] + fetches;
    s := server;
    fetched := 0;
    var left := tries;
    while left != 0
      invariant fetched + left == tries
      invariant s == seen[fetched]
      invariant forall j :: 0 <= j < fetched ==> !ParamReady(seen[j], name, expected)
    {
      var val: Option<string> := if name in s.attrs then Some(s.attrs[name]) else None;
      if !Falsy(val) {
        if Falsy(expected) || expected.value == val.value {
          WaitStopsAt(server, name, tries, expected, fetches, fetched);
          return;
        }
      }
      s := fetches[fetched];
      fetched := fetched + 1;
      left := left - 1;
    }
    WaitStopsAt(server, name, tries, expected, fetches, fetched);
  }

  /** The wait result once the first `k` candidates are known not to be ready and the next one
      is ready or the tries are used up. */
  lemma WaitStopsAt(server: Server, name: string, tries: nat, expected: Option<string>,
                    fetches: seq<Server>, k: nat)
    requires k <= tries <= |fetches|
    requires forall j :: 0 <= j < k ==> !ParamReady(([server] + fetches)[j], name, expected)
    requires k == tries || ParamReady(([server] + fetches)[k], name, expected)
    ensures WaitResult(server, name, tries, expected, fetches) == (([server] + fetches)[k], k)
  {
  }

  // ---------------------------------------------------------------- error classification

  const RestApiDown: string := "REST API of OpenStack is inaccessible. Please try again"

  predicate ApiDown(e: Exc) {
    e.className == "InternalServerError" || e.className == "ClientException"
  }

  /** `_verification_of_exceptions`: the failure raised, if any. */
  function VerificationOfExceptions(errors: seq<Exc>): (r: Option<string>)
    ensures r.Some? <==> exists i :: 0 <= i < |errors| && ApiDown(errors[i])
    ensures r.Some? ==> r.value == RestApiDown
  {
    if FirstMatch(errors, ApiDown).Some? then Some(RestApiDown) else None
  }

  /** The errors teardown records never make the check fail unless an SDK call itself
      reported one of the two API failures. */
  lemma TeardownVerdict(flavorDelete: Option<Exc>, rs: seq<Resource>)
    requires flavorDelete.None? || !ApiDown(flavorDelete.value)
    requires forall i :: 0 <= i < |rs| && rs[i].SdkObject? ==> rs[i].deleteError.None? || !ApiDown(rs[i].deleteError.value)
    requires forall i, j :: 0 <= i < |rs| && rs[i].SdkObject? && 0 <= j < |rs[i].probes| && rs[i].probes[j].Raised? ==>
      !ApiDown(rs[i].probes[j].e)
    ensures VerificationOfExceptions(AsList(flavorDelete) + TeardownLog(rs)).None?
  {
    var pre := AsList(flavorDelete);
    var log := pre + TeardownLog(rs);
    forall k | 0 <= k < |log|
      ensures !ApiDown(log[k])
    {
      if k >= |pre| {
        TeardownErrorNotApiDown(rs, k - |pre|);
      }
    }
  }

  /** Under the same conditions, no single teardown error is one of the two API failures. */
  lemma TeardownErrorNotApiDown(rs: seq<Resource>, k: nat)
    requires forall i :: 0 <= i < |rs| && rs[i].SdkObject? ==> rs[i].deleteError.None? || !ApiDown(rs[i].deleteError.value)
    requires forall i, j :: 0 <= i < |rs| && rs[i].SdkObject? && 0 <= j < |rs[i].probes| && rs[i].probes[j].Raised? ==>
      !ApiDown(rs[i].probes[j].e)
    requires k < |TeardownLog(rs)|
    ensures !ApiDown(TeardownLog(rs)[k])
  {
    TeardownLogFrom(rs, k);
  }

  /** Every recorded teardown error is a delete or probe error of one of the resources, or the
      `AttributeError` of a dict. */
  lemma {:induction false} TeardownLogFrom(rs: seq<Resource>, k: nat)
    requires k < |TeardownLog(rs)|
    ensures TeardownLog(rs)[k] == AttributeError
         || (exists i :: 0 <= i < |rs| && rs[i].SdkObject? && rs[i].deleteError == Some(TeardownLog(rs)[k]))
         || (exists i, j :: 0 <= i < |rs| && rs[i].SdkObject? && 0 <= j < |rs[i].probes| && rs[i].probes[j] == Raised(TeardownLog(rs)[k]))
    decreases |rs|
  {
    var rest := rs[1..];
    var tail := TeardownLog(rest);
    if k < |tail| {
      TeardownLogFrom(rest, k);
      assert TeardownLog(rs)[k] == tail[k];
      assert forall i :: 0 <= i < |rest| ==> rest[i] == rs[i + 1];
    } else {
      var m := k - |tail|;
      assert TeardownLog(rs)[k] == ResourceErrors(rs[0])[m];
      match rs[0]
      case PlainDict =>
      case SdkObject(d, probes) =>
        if m >= |AsList(d)| {
          var j := ProbeErrorFrom(probes, m - |AsList(d)|);
          assert rs[0].probes[j] == Raised(TeardownLog(rs)[k]);
        }
    }
  }

  /** Every probe error recorded is one raised by a probe. */
  lemma {:induction false} ProbeErrorFrom(probes: seq<Probe>, k: nat) returns (j: nat)
    requires k < |ProbeErrors(probes)|
    ensures j < |probes| && probes[j] == Raised(ProbeErrors(probes)[k])
    decreases |probes|
  {
    match probes[0]
    case StillThere =>
      j := ProbeErrorFrom(probes[1..], k);
      j := j + 1;
    case Raised(e) =>
      if k == 0 {
        j := 0;
      } else {
        j := ProbeErrorFrom(probes[1..], k - 1);
        j := j + 1;
      }
  }

  // ---------------------------------------------------------------- images

  datatype Image = Image(id: string, name: string)

  /** The exception raised when the image service lists no image at all. */
  datatype ImageFault = ImageFault

  /** Names are compared trimmed and lower-cased. */
  function NormalName(name: string): string
  {
    Lower(Strip(name))
  }

  /** `get_image_from_name`: the id of the first image whose name matches the configured one. */
  function GetImageFromName(images: seq<Image>, imageName: string): (r: Result<Option<string>, ImageFault>)
    ensures r.Err? <==> |images| == 0
    ensures r.Ok? && r.value.Some? ==>
      exists i :: 0 <= i < |images| && images[i].id == r.value.value
        && NormalName(images[i].name) == NormalName(imageName)
        && forall j :: 0 <= j < i ==> NormalName(images[j].name) != NormalName(imageName)
    ensures r == Ok(None) <==>
      |images| > 0 && forall i :: 0 <= i < |images| ==> NormalName(images[i].name) != NormalName(imageName)
  {
    if |images| == 0 then Err(ImageFault)
    else
      match FirstMatch(images, (im: Image) => NormalName(im.name) == NormalName(imageName))
      case Some(i) => Ok(Some(images[i].id))
      case None => Ok(None)
  }

  /** Padding around the configured name does not change the lookup. */
  lemma ImageLookupIgnoresPadding(images: seq<Image>, imageName: string)
    ensures GetImageFromName(images, Strip(imageName)) == GetImageFromName(images, imageName)
  {
    StripIdempotent(imageName);
  }

  /** The configured name matches images whatever the case of its ASCII letters. */
  lemma ImageLookupIgnoresCase(images: seq<Image>, name: string, other: string)
    requires SameUpToCase(Strip(name), Strip(other))
    ensures GetImageFromName(images, other) == GetImageFromName(images, name)
  {
    LowerSameUpToCase(Strip(name), Strip(other));
  }

  // ---------------------------------------------------------------- ssh timeout

  /** The ssh timeout used to reach instances: the configured one when it is above 30 seconds,
      30 otherwise. */
  function SshTimeoutFloor(timeout: int): (r: int)
    ensures r >= 30 && r >= timeout
    ensures r == timeout || r == 30
  {
    if timeout > 30 then timeout else 30
  }
}
