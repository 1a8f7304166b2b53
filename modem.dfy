/**
 * Discovery of attached Huawei dongles in sysfs and construction of their
 * clients.
 *
 * The filesystem is given as inputs: `vendorPaths` is what the glob of
 * `idVendor` under `/sys/bus/usb/devices` returned, `files` maps each readable
 * file to its contents (a missing key means `open` raises), `interfaces` is
 * what the glob of the entries of `/sys/class/net` returned, and `links` is
 * `os.path.realpath` (a path with no entry resolves to itself).
 */
module Modem {
  import opened Wrappers
  import opened Text
  import opened Paths
  import opened Seqs
  import HuaweiE303

  /** The USB vendor id of Huawei. */
  const HuaweiVendor := "12d1"

  /** Name and client class of a supported dongle. */
  datatype Dongle = Dongle(name: string, driverClass: string)

  /** The supported product ids. */
  const SupportedDongles: map<string, Dongle> := map["14dc" := Dongle("Huawei E303", "huawei_e303")]

  /**
   * One record of `find()`. `dongle` holds the `name` and `class` keys, which
   * the record has exactly when it is supported.
   */
  datatype Device = Device(
    path: string,
    supported: bool,
    productId: string,
    interface: Option<string>,
    dongle: Option<Dongle>)

  /** The exception `open` raises on a missing file. */
  datatype FsError = FileNotFound(path: string)

  /** `os.path.realpath(p)`. */
  function Resolve(links: map<string, string>, p: string): string
  {
    if p in links then links[p] else p
  }

  /** The resolved `device` link of `iface` lies under the resolved device path. */
  predicate Serves(resolvedDevice: string, iface: string, links: map<string, string>)
  {
    Contains(Resolve(links, PathJoin(iface, "device")), resolvedDevice)
  }

  /** The first interface, in glob order, that serves `resolvedDevice`, by base name. */
  function FirstServing(resolvedDevice: string, interfaces: seq<string>, links: map<string, string>): Option<string>
  {
    if interfaces == [] then None
    else if Serves(resolvedDevice, interfaces[0], links) then Some(Basename(interfaces[0]))
    else FirstServing(resolvedDevice, interfaces[1..], links)
  }

  /** `find_interface(sysfs_device_path)` as a value. */
  function InterfaceOf(sysfsPath: string, interfaces: seq<string>, links: map<string, string>): Option<string>
  {
    FirstServing(Resolve(links, sysfsPath), interfaces, links)
  }

  /**
   * The interface found is the base name of the first interface whose
   * resolved `device` link contains the resolved device path.
   */
  lemma {:induction false} FirstServingSpec(resolvedDevice: string, interfaces: seq<string>, links: map<string, string>)
    requires FirstServing(resolvedDevice, interfaces, links).Some?
    ensures exists k :: 0 <= k < |interfaces| && Serves(resolvedDevice, interfaces[k], links) &&
              FirstServing(resolvedDevice, interfaces, links).value == Basename(interfaces[k]) &&
              forall j :: 0 <= j < k ==> !Serves(resolvedDevice, interfaces[j], links)
  {
    if !Serves(resolvedDevice, interfaces[0], links) {
      var rest := interfaces[1..];
      FirstServingSpec(resolvedDevice, rest, links);
      var k :| 0 <= k < |rest| && Serves(resolvedDevice, rest[k], links) &&
               FirstServing(resolvedDevice, rest, links).value == Basename(rest[k]) &&
               forall j :: 0 <= j < k ==> !Serves(resolvedDevice, rest[j], links);
      ShiftedScan(resolvedDevice, interfaces, links, k);
    }
  }

  lemma {:induction false} ShiftedScan(resolvedDevice: string, interfaces: seq<string>, links: map<string, string>, k: nat)
    requires k < |interfaces| - 1
    requires !Serves(resolvedDevice, interfaces[0], links)
    requires forall j :: 0 <= j < k ==> !Serves(resolvedDevice, interfaces[1..][j], links)
    ensures interfaces[1..][k] == interfaces[k + 1]
    ensures forall j :: 0 <= j < k + 1 ==> !Serves(resolvedDevice, interfaces[j], links)
  {
    forall j | 0 <= j < k + 1
      ensures !Serves(resolvedDevice, interfaces[j], links)
    {
      if j > 0 { assert interfaces[j] == interfaces[1..][j - 1]; }
    }
  }

  /** No interface is found exactly when no interface's resolved `device` link contains the device path. */
  lemma {:induction false} FirstServingNone(resolvedDevice: string, interfaces: seq<string>, links: map<string, string>)
    ensures FirstServing(resolvedDevice, interfaces, links).None? <==>
              forall k :: 0 <= k < |interfaces| ==> !Serves(resolvedDevice, interfaces[k], links)
  {
    if interfaces != [] && !Serves(resolvedDevice, interfaces[0], links) {
      var rest := interfaces[1..];
      FirstServingNone(resolvedDevice, rest, links);
      assert forall k :: 0 < k < |interfaces| ==> interfaces[k] == rest[k - 1];
    }
  }

  /** `find_interface(sysfs_device_path)`: a scan with an early return. */
  method FindInterface(sysfsDevicePath: string, interfaces: seq<string>, links: map<string, string>)
    returns (r: Option<string>)
    ensures r == InterfaceOf(sysfsDevicePath, interfaces, links)
  {
    var sysfsDevice := Resolve(links, sysfsDevicePath);
    var i := 0;
    while i < |interfaces|
      invariant 0 <= i <= |interfaces|
      invariant FirstServing(sysfsDevice, interfaces, links) == FirstServing(sysfsDevice, interfaces[i..], links)
    {
      var deviceSymlink := PathJoin(interfaces[i], "device");
      var deviceEndpoint := Resolve(links, deviceSymlink);
      if Contains(deviceEndpoint, sysfsDevice) {
        return Some(Basename(interfaces[i]));
      }
      assert interfaces[i..][1..] == interfaces[i + 1..];
      i := i + 1;
    }
    return None;
  }

  /** The vendor file reads `12d1` once stripped. */
  predicate IsHuawei(vendorPath: string, files: map<string, string>)
  {
    vendorPath in files && Strip(files[vendorPath]) == HuaweiVendor
  }

  /** The `idProduct` file beside a vendor file. */
  function ProductFile(vendorPath: string): string
  {
    PathJoin(DirName(vendorPath), "idProduct")
  }

  /** The record for a device with product id `productId`, classified by the table. */
  function Describe(sysfsPath: string, productId: string, interface: Option<string>): (d: Device)
    ensures d.path == sysfsPath && d.productId == productId && d.interface == interface
    ensures d.supported <==> productId == "14dc"
    ensures d.supported ==> d.dongle == Some(Dongle("Huawei E303", "huawei_e303"))
    ensures !d.supported ==> d.dongle == None
  {
    if productId in SupportedDongles then
      Device(sysfsPath, true, productId, interface, Some(SupportedDongles[productId]))
    else
      Device(sysfsPath, false, productId, interface, None)
  }

  /** The record `find()` emits for a Huawei vendor file whose product file is readable. */
  function Entry(vendorPath: string, files: map<string, string>, interfaces: seq<string>, links: map<string, string>): Device
    requires ProductFile(vendorPath) in files
  {
    var sysfsPath := DirName(vendorPath);
    Describe(sysfsPath, Strip(files[ProductFile(vendorPath)]), InterfaceOf(sysfsPath, interfaces, links))
  }

  /** One iteration of `find()`: no record, one record, or the file that failed to open. */
  function Probe(vendorPath: string, files: map<string, string>, interfaces: seq<string>, links: map<string, string>)
    : Result<Option<Device>, FsError>
  {
    if vendorPath !in files then Failure(FileNotFound(vendorPath))
    else if !IsHuawei(vendorPath, files) then Success(None)
    else if ProductFile(vendorPath) !in files then Failure(FileNotFound(ProductFile(vendorPath)))
    else Success(Some(Entry(vendorPath, files, interfaces, links)))
  }

  /** `find()` as a value: the records for `vendorPaths`, or the first failure. */
  function Discover(vendorPaths: seq<string>, files: map<string, string>, interfaces: seq<string>, links: map<string, string>)
    : Result<seq<Device>, FsError>
  {
    if vendorPaths == [] then Success([])
    else match Discover(vendorPaths[..|vendorPaths| - 1], files, interfaces, links)
      case Failure(e) => Failure(e)
      case Success(ds) =>
        match Probe(vendorPaths[|vendorPaths| - 1], files, interfaces, links)
        case Failure(e) => Failure(e)
        case Success(None) => Success(ds)
        case Success(Some(d)) => Success(ds + [d])
  }

  /** A failure on a prefix of the vendor paths is the failure of the whole scan. */
  lemma {:induction false} DiscoverPrefixFailure(vendorPaths: seq<string>, n: nat, files: map<string, string>,
                                                 interfaces: seq<string>, links: map<string, string>)
    requires n <= |vendorPaths|
    requires Discover(vendorPaths[..n], files, interfaces, links).Failure?
    ensures Discover(vendorPaths, files, interfaces, links) == Discover(vendorPaths[..n], files, interfaces, links)
    decreases |vendorPaths| - n
  {
    if n < |vendorPaths| {
      var m := |vendorPaths| - 1;
      assert vendorPaths[..m][..n] == vendorPaths[..n];
      DiscoverPrefixFailure(vendorPaths[..m], n, files, interfaces, links);
    } else {
      assert vendorPaths[..n] == vendorPaths;
    }
  }

  /** The scan of one more vendor path extends the records of the shorter scan. */
  lemma {:induction false} DiscoverNext(vendorPaths: seq<string>, i: nat, files: map<string, string>,
                     interfaces: seq<string>, links: map<string, string>)
    requires i < |vendorPaths|
    requires Discover(vendorPaths[..i], files, interfaces, links).Success?
    ensures var ds := Discover(vendorPaths[..i], files, interfaces, links).value;
            Discover(vendorPaths[..i + 1], files, interfaces, links) ==
              match Probe(vendorPaths[i], files, interfaces, links)
              case Failure(e) => Failure(e)
              case Success(None) => Success(ds)
              case Success(Some(d)) => Success(ds + [d])
  {
    assert vendorPaths[..i + 1][..i] == vendorPaths[..i];
  }

  /**
   * `find()`: for each vendor file in glob order, read it; for a Huawei one,
   * read the product file beside it and append a record.
   */
  method Find(vendorPaths: seq<string>, files: map<string, string>, interfaces: seq<string>, links: map<string, string>)
    returns (r: Result<seq<Device>, FsError>)
    ensures r == Discover(vendorPaths, files, interfaces, links)
  {
    var result: seq<Device> := [];
    for i := 0 to |vendorPaths|
      invariant Discover(vendorPaths[..i], files, interfaces, links) == Success(result)
    {
      var device := vendorPaths[i];
      DiscoverNext(vendorPaths, i, files, interfaces, links);
      if device !in files {
        DiscoverPrefixFailure(vendorPaths, i + 1, files, interfaces, links);
        return Failure(FileNotFound(device));
      }
      var vendorId := Strip(files[device]);
      if vendorId == HuaweiVendor {
        var pathPart := Split(device);
        var sysfsPath := Join(pathPart[..|pathPart| - 1]);
        assert sysfsPath == DirName(device);
        var productPath := PathJoin(sysfsPath, "idProduct");
        if productPath !in files {
          DiscoverPrefixFailure(vendorPaths, i + 1, files, interfaces, links);
          return Failure(FileNotFound(productPath));
        }
        var productId := Strip(files[productPath]);
        var interface := FindInterface(sysfsPath, interfaces, links);
        var record := Describe(sysfsPath, productId, interface);
        assert record == Entry(device, files, interfaces, links);
        assert Probe(device, files, interfaces, links) == Success(Some(record));
        result := result + [record];
      } else {
        assert Probe(device, files, interfaces, links) == Success(None);
      }
    }
    assert vendorPaths[..|vendorPaths|] == vendorPaths;
    return Success(result);
  }

  /** Every file `find()` opens for this vendor path can be opened. */
  predicate Readable(vendorPath: string, files: map<string, string>)
  {
    vendorPath in files && (IsHuawei(vendorPath, files) ==> ProductFile(vendorPath) in files)
  }

  /** Every vendor path in `vendorPaths` is `Readable`. */
  predicate AllReadable(vendorPaths: seq<string>, files: map<string, string>)
  {
    forall k :: 0 <= k < |vendorPaths| ==> Readable(vendorPaths[k], files)
  }

  lemma {:induction false} AllReadableStep(vendorPaths: seq<string>, files: map<string, string>)
    requires vendorPaths != []
    ensures var n := |vendorPaths| - 1;
            AllReadable(vendorPaths, files) <==>
              AllReadable(vendorPaths[..n], files) && Readable(vendorPaths[n], files)
  {
    var n := |vendorPaths| - 1;
    if AllReadable(vendorPaths[..n], files) && Readable(vendorPaths[n], files) {
      forall k | 0 <= k < |vendorPaths|
        ensures Readable(vendorPaths[k], files)
      {
        if k < n {
          assert vendorPaths[..n][k] == vendorPaths[k];
        }
      }
    }
  }

  /**
   * `find()` succeeds exactly when every vendor file, and the product file of
   * every Huawei one, can be opened; product files of other vendors are never
   * read.
   */
  lemma {:induction false} DiscoverSucceeds(vendorPaths: seq<string>, files: map<string, string>,
                                            interfaces: seq<string>, links: map<string, string>)
    ensures Discover(vendorPaths, files, interfaces, links).Success? <==> AllReadable(vendorPaths, files)
  {
    if vendorPaths != [] {
      DiscoverSucceeds(vendorPaths[..|vendorPaths| - 1], files, interfaces, links);
      DiscoverStep(vendorPaths, files, interfaces, links);
      AllReadableStep(vendorPaths, files);
    }
  }

  lemma {:induction false} DiscoverStep(vendorPaths: seq<string>, files: map<string, string>,
                     interfaces: seq<string>, links: map<string, string>)
    requires vendorPaths != []
    ensures var n := |vendorPaths| - 1;
            Discover(vendorPaths, files, interfaces, links).Success? <==>
              Discover(vendorPaths[..n], files, interfaces, links).Success? && Readable(vendorPaths[n], files)
  {
  }

  /**
   * When `find()` fails, the file named in the error is missing, and it is
   * one of the vendor files or the product file beside one.
   */
  lemma {:induction false} DiscoverMissing(vendorPaths: seq<string>, files: map<string, string>,
                                           interfaces: seq<string>, links: map<string, string>)
    requires Discover(vendorPaths, files, interfaces, links).Failure?
    ensures var missing := Discover(vendorPaths, files, interfaces, links).error.path;
            missing !in files &&
            exists k :: 0 <= k < |vendorPaths| && (missing == vendorPaths[k] || missing == ProductFile(vendorPaths[k]))
  {
    var n := |vendorPaths| - 1;
    var init := vendorPaths[..n];
    if Discover(init, files, interfaces, links).Failure? {
      DiscoverMissing(init, files, interfaces, links);
      var missing := Discover(init, files, interfaces, links).error.path;
      var k :| 0 <= k < |init| && (missing == init[k] || missing == ProductFile(init[k]));
      assert init[k] == vendorPaths[k];
    }
  }

  /** The vendor paths whose vendor file reads `12d1`, in glob order. */
  function HuaweiPaths(vendorPaths: seq<string>, files: map<string, string>): seq<string>
  {
    Filter(vendorPaths, HuaweiIn(files))
  }

  function HuaweiIn(files: map<string, string>): string -> bool
  {
    p => IsHuawei(p, files)
  }

  /**
   * The Huawei paths are exactly the vendor paths whose file reads `12d1`,
   * so there are no more of them than vendor paths.
   */
  lemma {:induction false} HuaweiPathsSpec(vendorPaths: seq<string>, files: map<string, string>)
    ensures |HuaweiPaths(vendorPaths, files)| <= |vendorPaths|
    ensures forall p :: p in HuaweiPaths(vendorPaths, files) <==> p in vendorPaths && IsHuawei(p, files)
  {
    FilterSpec(vendorPaths, HuaweiIn(files));
  }

  /** Order: the Huawei paths of a concatenation are those of each part, in turn. */
  lemma {:induction false} HuaweiPathsAppend(a: seq<string>, b: seq<string>, files: map<string, string>)
    ensures HuaweiPaths(a + b, files) == HuaweiPaths(a, files) + HuaweiPaths(b, files)
  {
    FilterAppend(a, b, HuaweiIn(files));
  }

  /**
   * A successful `find()` returns one record per Huawei vendor path, in glob
   * order, each the `Entry` of that path.
   */
  lemma {:induction false} DiscoverEntries(vendorPaths: seq<string>, files: map<string, string>,
                                           interfaces: seq<string>, links: map<string, string>)
    requires Discover(vendorPaths, files, interfaces, links).Success?
    ensures var ds := Discover(vendorPaths, files, interfaces, links).value;
            var hs := HuaweiPaths(vendorPaths, files);
            |ds| == |hs| &&
            forall k :: 0 <= k < |ds| ==> ProductFile(hs[k]) in files && ds[k] == Entry(hs[k], files, interfaces, links)
  {
    if vendorPaths != [] {
      var n := |vendorPaths| - 1;
      var last := vendorPaths[n];
      assert vendorPaths[..n + 1] == vendorPaths;
      DiscoverStep(vendorPaths, files, interfaces, links);
      DiscoverEntries(vendorPaths[..n], files, interfaces, links);
      DiscoverNext(vendorPaths, n, files, interfaces, links);
      var ds0 := Discover(vendorPaths[..n], files, interfaces, links).value;
      var hs0 := HuaweiPaths(vendorPaths[..n], files);
      var ds := Discover(vendorPaths, files, interfaces, links).value;
      var hs := HuaweiPaths(vendorPaths, files);
      if IsHuawei(last, files) {
        assert Probe(last, files, interfaces, links) == Success(Some(Entry(last, files, interfaces, links)));
        assert ds == ds0 + [Entry(last, files, interfaces, links)];
        assert hs == hs0 + [last];
      } else {
        assert Probe(last, files, interfaces, links) == Success(None);
        assert ds == ds0;
        assert hs == hs0;
      }
      forall k | 0 <= k < |ds|
        ensures ProductFile(hs[k]) in files && ds[k] == Entry(hs[k], files, interfaces, links)
      {
        if k < |ds0| {
          assert ds[k] == ds0[k] && hs[k] == hs0[k];
        }
      }
    }
  }

  /**
   * What a successful `find()` says about each record: its path is the
   * vendor file's directory, its vendor file reads `12d1`, and it is
   * supported, named "Huawei E303" and of class `huawei_e303` exactly when
   * its stripped product id is `14dc`.
   */
  lemma {:induction false} DiscoveredRecord(vendorPaths: seq<string>, files: map<string, string>,
                         interfaces: seq<string>, links: map<string, string>, k: nat)
    requires Discover(vendorPaths, files, interfaces, links).Success?
    requires k < |Discover(vendorPaths, files, interfaces, links).value|
    ensures var d := Discover(vendorPaths, files, interfaces, links).value[k];
            exists p :: p in vendorPaths && IsHuawei(p, files) && ProductFile(p) in files
              && d.path == DirName(p)
              && d.productId == Strip(files[ProductFile(p)])
              && d.interface == InterfaceOf(DirName(p), interfaces, links)
              && (d.supported <==> d.productId == "14dc")
              && (d.supported ==> d.dongle == Some(Dongle("Huawei E303", "huawei_e303")))
              && (!d.supported ==> d.dongle == None)
  {
    DiscoverEntries(vendorPaths, files, interfaces, links);
    HuaweiPathsSpec(vendorPaths, files);
    var p := HuaweiPaths(vendorPaths, files)[k];
    assert p in HuaweiPaths(vendorPaths, files);
  }

  /** `load()` keeps a record when it is supported and of class `huawei_e303`. */
  predicate Loadable(d: Device)
  {
    d.supported && d.dongle.Some? && d.dongle.value.driverClass == "huawei_e303"
  }

  /** The records `load()` builds clients for, in order. */
  function LoadableDevices(ds: seq<Device>): seq<Device>
  {
    Filter(ds, Loadable)
  }

  /** The loadable records are exactly the loadable members of the input. */
  lemma {:induction false} LoadableDevicesSpec(ds: seq<Device>)
    ensures |LoadableDevices(ds)| <= |ds|
    ensures forall d :: d in LoadableDevices(ds) <==> d in ds && Loadable(d)
  {
    FilterSpec(ds, Loadable);
  }

  /** Order: the loadable records of a concatenation are those of each part, in turn. */
  lemma {:induction false} LoadableDevicesAppend(a: seq<Device>, b: seq<Device>)
    ensures LoadableDevices(a + b) == LoadableDevices(a) + LoadableDevices(b)
  {
    FilterAppend(a, b, Loadable);
  }

  /** Among discovered records, the loadable ones are those with product id `14dc`. */
  lemma {:induction false} DiscoveredLoadable(vendorPaths: seq<string>, files: map<string, string>,
                           interfaces: seq<string>, links: map<string, string>, k: nat)
    requires Discover(vendorPaths, files, interfaces, links).Success?
    requires k < |Discover(vendorPaths, files, interfaces, links).value|
    ensures var d := Discover(vendorPaths, files, interfaces, links).value[k];
            Loadable(d) <==> d.productId == "14dc"
  {
    DiscoveredRecord(vendorPaths, files, interfaces, links, k);
  }

  /**
   * `load()`: run `find()` and build one client per loadable record, from
   * that record's interface and path, in order. A failure of `find()`
   * propagates.
   */
  method Load(vendorPaths: seq<string>, files: map<string, string>, interfaces: seq<string>, links: map<string, string>)
    returns (r: Result<seq<HuaweiE303.HuaweiE303Modem>, FsError>)
    ensures Discover(vendorPaths, files, interfaces, links).Failure? ==>
              r == Failure(Discover(vendorPaths, files, interfaces, links).error)
    ensures Discover(vendorPaths, files, interfaces, links).Success? ==>
              var wanted := LoadableDevices(Discover(vendorPaths, files, interfaces, links).value);
              && r.Success? && |r.value| == |wanted|
              && forall k :: 0 <= k < |wanted| ==>
                   && r.value[k].interface == wanted[k].interface
                   && r.value[k].path == wanted[k].path
                   && r.value[k].baseUrl == "http://192.168.8.1/api"
  {
    var found := Find(vendorPaths, files, interfaces, links);
    if found.Failure? {
      return Failure(found.error);
    }
    var modems := found.value;
    var result: seq<HuaweiE303.HuaweiE303Modem> := [];
    ghost var wanted: seq<Device> := [];
    for i := 0 to |modems|
      invariant wanted == LoadableDevices(modems[..i])
      invariant |result| == |wanted|
      invariant forall k :: 0 <= k < |result| ==>
                  && result[k].interface == wanted[k].interface
                  && result[k].path == wanted[k].path
                  && result[k].baseUrl == "http://192.168.8.1/api"
    {
      var modem := modems[i];
      FilterPrefix(modems, i, Loadable);
      if modem.supported {
        if modem.dongle.Some? && modem.dongle.value.driverClass == "huawei_e303" {
          var client := new HuaweiE303.HuaweiE303Modem(modem.interface, modem.path);
          result := result + [client];
          wanted := wanted + [modem];
        }
      }
    }
    assert modems[..|modems|] == modems;
    return Success(result);
  }
}
