# huawei-3g: device discovery and the E303 client, in Dafny

This project models the two parts of the `huawei_3g` Python package that
make decisions rather than only doing I/O:

- **Device discovery** (`huawei_3g/modem.py`). `find()` walks the USB
  `idVendor` files in sysfs. It keeps the devices whose vendor id, once
  stripped, is Huawei's `12d1`. For each one it reads `idProduct` and
  classifies it against the table of supported dongles (only `14dc`, the
  Huawei E303). It also looks up the device's network interface with
  `find_interface()`. `load()` builds one `HuaweiE303Modem` client per
  supported E303 record.
- **The E303 client** (`huawei_3g/huawei_e303.py`). The constructor fixes
  the API root `http://192.168.8.1/api`. `_api_get` flattens the children of
  the response's root element into a tag-to-text dictionary, or returns an
  empty one for any status other than 200. `get_status` decodes the
  `ConnectionStatus` code through a five-entry table and scales `SignalIcon`
  to a percentage.

The filesystem and the network become inputs:

- the globbed vendor paths and network-interface paths are sequences;
- readable files are a map from path to contents; a missing key means `open` raises;
- `os.path.realpath` is a map; a path with no entry resolves to itself;
- the dongle's HTTP server is a function from URL to response. A response
  carries its status code and its already-parsed root element, or `None`
  when the body is not well-formed UTF-8 XML.

A Python exception becomes the `Failure` case of a `Result`:
`FsError.FileNotFound` for `open`, and `ApiError` for the client.

Files:

- `wrappers.dfy`: `Option` and `Result`.
- `text.dfy`: `str.strip()`, the substring test `a in b`, `int()` and `str()` on integers.
- `seqs.dfy`: order-preserving selection from a sequence, as a list comprehension with a condition builds it.
- `paths.dfy`: `rfind`, `split("/")`, `"/".join`, `os.path.basename`, `os.path.join`.
- `modem.dfy`: `find`, `find_interface`, `load` as loops. `find` and `find_interface` are
  proved equal to specification functions. `load` is proved to build one client per
  record of the specification `LoadableDevices`, field by field. Lemmas about these functions.
- `huawei_e303.dfy`: the `HuaweiE303Modem` class, `_api_get`, `get_status`.

Where the tests and the code disagree, the model follows the code.
`test_huaweiE303Modem.py:23-27` expects the status text `'Connected'` and a
`network_type` key. The code returns lower-case descriptions and only the
keys `status` and `signal`.

## Model

| member | source | states |
|---|---|---|
| `Text.StripSpec` | huawei_3g/modem.py:46 | `strip()` returns a slice of its input with no whitespace at either end, and only whitespace is cut off on either side |
| `Text.StripPadded` | huawei_3g/modem.py:52 | any whitespace around a word without edge whitespace is exactly what `strip()` removes, so `"14dc\n"` reads as `"14dc"` |
| `Text.ContainsSpec` | huawei_3g/modem.py:83 | the substring test `a in b` holds exactly when `a` occurs at some index of `b` |
| `Text.ParseFormat` | huawei_3g/huawei_e303.py:20 | `int(str(n)) == n` for every integer |
| `Text.ParseIntPadded` | huawei_3g/huawei_e303.py:20 | `int()` ignores whitespace around a number: tab, line feed, vertical tab, form feed, carriage return, space and non-ASCII whitespace |
| `Text.ParseIntSeparator` | huawei_3g/huawei_e303.py:20 | the separators U+001C..U+001F are whitespace to `strip()` but not to `int()`: a text starting with one raises |
| `Paths.JoinSplit` | huawei_3g/modem.py:48-49 | `"/".join(p.split("/")) == p` |
| `Paths.DirName` | huawei_3g/modem.py:48-49 | `"/".join(p.split("/")[0:-1])` is `p` up to its last `/`, or empty when `p` has no `/` |
| `Paths.Basename` | huawei_3g/modem.py:84 | the base name has no `/`, and `p` is its directory, a `/`, and its base name (or the base name alone) |
| `Paths.PathJoinParts` | huawei_3g/modem.py:51 | joining a file name onto a directory and splitting the result gives back the directory and the name |
| `Modem.FirstServingSpec` | huawei_3g/modem.py:79-85 | the interface found is the base name of the first interface whose resolved `device` link contains the resolved device path, and no earlier interface matches |
| `Modem.FirstServingNone` | huawei_3g/modem.py:79-85 | no interface is found exactly when no interface's resolved `device` link contains the resolved device path |
| `Modem.FindInterface` | huawei_3g/modem.py:73-85 | the scan with early return computes exactly that first match |
| `Modem.Describe` | huawei_3g/modem.py:54-69 | a record is supported exactly when its product id is `14dc`; supported records carry name "Huawei E303" and class `huawei_e303`, the others carry neither |
| `Modem.Find` | huawei_3g/modem.py:44-70 | the loop returns exactly the specification `Discover` of its inputs, including which file failed to open |
| `Modem.DiscoverSucceeds` | huawei_3g/modem.py:44-52 | `find()` succeeds exactly when every vendor file opens and the product file of every Huawei vendor opens; other vendors' product files are never read |
| `Modem.DiscoverMissing` | huawei_3g/modem.py:45-51 | when `find()` fails, the file it names is missing and is a vendor file or the product file beside one |
| `Modem.HuaweiPathsSpec` | huawei_3g/modem.py:44-47 | the paths kept are exactly the vendor paths whose file strips to `12d1`, so there are no more of them than vendor paths |
| `Modem.HuaweiPathsAppend` | huawei_3g/modem.py:44-47 | the kept paths keep glob order: those of a concatenation are those of each part in turn |
| `Modem.DiscoverEntries` | huawei_3g/modem.py:44-70 | a successful `find()` returns one record per kept path, in order, each built from that path |
| `Modem.DiscoveredRecord` | huawei_3g/modem.py:47-69 | each record comes from a vendor path reading `12d1`; its path is that file's directory, and its product id, interface and classification are the ones read for it |
| `Modem.LoadableDevicesSpec` | huawei_3g/modem.py:97-99 | `load()` keeps exactly the supported records of class `huawei_e303`, so no more than `find()` returned |
| `Modem.LoadableDevicesAppend` | huawei_3g/modem.py:97-101 | the kept records stay in `find()` order |
| `Modem.DiscoveredLoadable` | huawei_3g/modem.py:98-99 | among discovered records, the ones `load()` keeps are those with product id `14dc` |
| `Modem.Load` | huawei_3g/modem.py:88-102 | `load()` propagates a failure of `find()`; otherwise it returns one client per kept record, in order, with that record's interface and path and the fixed API root |
| `HuaweiE303.HuaweiE303Modem.constructor` | huawei_3g/huawei_e303.py:5-9 | the client stores the interface and sysfs path, the address `192.168.8.1` and the API root `http://192.168.8.1/api` |
| `HuaweiE303.HuaweiE303Modem.ApiGet` | huawei_3g/huawei_e303.py:30-40 | `_api_get(url)` requests the API root followed by `url`; it returns the empty dictionary for a status other than 200, else the flattened children of the root |
| `HuaweiE303.FlattenKeys` | huawei_3g/huawei_e303.py:36-39 | the flattened dictionary's keys are exactly the tags of the root's direct children |
| `HuaweiE303.FlattenLast` | huawei_3g/huawei_e303.py:37-38 | each tag maps to the text of the last child carrying it: later duplicates overwrite earlier ones |
| `HuaweiE303.RootIgnored` | huawei_3g/huawei_e303.py:35-39 | the root's tag plays no part, so an `<error>` envelope is flattened like a `<response>` |
| `HuaweiE303.DecodeStatus` | huawei_3g/huawei_e303.py:13-24 | decoding succeeds exactly when `SignalIcon` parses as an integer and `ConnectionStatus` is a known code; for icon levels 0..5 the signal is 20 × the level, within 0..100; errors come in the source's order: a missing `SignalIcon`, then one that is empty or not an integer, then a missing, empty or unknown `ConnectionStatus` |
| `HuaweiE303.StatusTableMeaning` | huawei_3g/huawei_e303.py:13-19 | 900 is connecting, 901 and 905 connected, 902 disconnected, 903 disconnecting, and no other code is known |
| `HuaweiE303.DecodeReported` | huawei_3g/huawei_e303.py:20-24 | a response whose children carry a known `ConnectionStatus` code and a `SignalIcon` level 0..5, in either order, among any other children and not repeated later, decodes to that code's description and 20 × the level |
| `HuaweiE303.HuaweiE303Modem.GetStatus` | huawei_3g/huawei_e303.py:11-24 | `get_status()` fetches `/monitoring/status` and decodes it; a non-200 answer fails on the missing `SignalIcon` |

## Left out

- Real filesystem access (`glob.glob`, `open`, `os.path.realpath`) is replaced by the inputs described above. Glob's ordering is whatever order the input sequence has.
- `Modem.Resolve`: `os.path.realpath` is a lookup in the `links` map. The normalisation of `.`, `..` and repeated slashes in unlisted paths is not modelled.
- HTTP (`requests.get`) is the `server` parameter. Connection errors and timeouts raised by `requests` are not modelled. UTF-8 decoding and XML parsing are folded into the parsed `document`, and their failures into `MalformedBody`.
- `_api_get`'s `parameters` argument is unused by the source and is not modelled.
- `HuaweiE303.DecodeStatus`: the signal is stated only for icon levels 0..5, where it is 20 × the level. For other levels the model computes 20 × the level exactly. The source's `int(int(x) / 5.0 * 100.0)` runs in double arithmetic and truncates the product, so the two differ for many small levels, not only huge ones. Level 23, for example, gives 459.99999999999994 and so 459 in the source, and 460 in the model. Decoding also succeeds in the model for every integer level, whereas the source raises `OverflowError` once the level, or 20 × the level, is beyond the range of a double (about 1.8 × 10^308).
- `Text.ParseInt`: Python's `int()` also accepts underscores between digits and non-ASCII decimal digits. These are not modelled. Nor is the limit on integer-string conversion in CPython 3.11 and later (and the 2022 security releases of 3.7–3.10): by default `int()` raises `ValueError` on a text of more than 4300 digits, and the model parses it.
- `Text.ParseFormat`: the round trip holds for every integer only without that 4300-digit limit. Under the limit, `str()` and `int()` both raise beyond 4300 digits.
- `Modem.Load`: the ensures does not state that the clients are newly allocated and distinct objects.
- Token handling, response error envelopes with codes, `_parse_api_response`, `TokenError`, `_api_post`, `get_messages`, `get_message_count` and message deletion are referenced by the tests only. `huawei_3g/huawei_e303.py` defines none of them, so they are not part of this model.
- `huawei_3g/datastructures.py` (the `SMSMessage` record) and both `__repr__` methods are only field storage and string formatting.
- The tests are used only as evidence for the properties above.
