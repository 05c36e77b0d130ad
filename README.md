# ssh-access-finder in Dafny

This is a model of the `DeviceAccess` class in `fetch_devices.py`, the one-file tool
that finds the SSH-accessible devices of a /24 network. The model covers its four
operations:

- `set_log_level` upper-cases the configured level name. A known name selects its
  level; a missing name falls back to INFO, and so does an unknown name, which also
  gets a warning. In every case it logs one notice and then calls `setLevel` once.
- `check_ssh_access` connects over SSH. When connect returns, it closes the
  connection and answers True. It answers False for an `AuthenticationException`,
  an `SSHException` or a `socket.error`. Any other exception propagates.
- `find_devices_in_network` logs a centred banner. It then probes every host of
  `network_ip/24` in ascending order and logs and keeps each accessible one.
- `display_found_devices` logs a header. It then logs either one "Empty list" error
  or one INFO line per device.

The stateful objects are classes:

- `Logging.Logger` holds the logger's level and the sequence of calls made on it.
- `SshProbe.Network` holds a fixed oracle `reply`, which says how `connect` to each
  host ends, and the sequence of client calls made.
- `Devices.DeviceAccess` holds the configuration, the logger and the network, and
  its methods change the last two.

Each method is proved against a pure specification function:

| method | specification function | module |
|---|---|---|
| `SetLogLevel` | `SelectLevel` | `LogLevel` |
| `CheckSshAccess` | `CheckAccess` and `ProbeCalls` | `SshProbe` |
| `FindDevicesInNetwork` | `ScanResult`, `ProbeTrace` and `FoundEvents` | `SubnetScan` |
| `DisplayFoundDevices` | `ReportTrace` | `Report` |

The lemmas beside those functions state what the code promises:

- the default level and case-insensitive selection;
- which exception kinds the probe catches;
- the scan result is exactly the accessible hosts, in host order, without
  duplicates, and never the network or broadcast address;
- each host is connected to exactly once, in order;
- the shape of the report.

The helper modules are these:

- `PyStrings` models `str.upper` and `str.center`.
- `Ipv4` models addresses, the hosts of a /24 network, and dotted-quad text, which
  is proved injective.
- `Wrappers` holds `Option` and `Result`.

## Model

| member | source | states |
|---|---|---|
| PyStrings.Upper | fetch_devices.py:36 | `upper()` keeps the length and upper-cases each character: a-z shift to A-Z, all else is kept |
| PyStrings.UpperIdempotent | fetch_devices.py:36-37 | upper-casing an upper-cased name changes nothing |
| PyStrings.UpperEqualIffCaseless | fetch_devices.py:36-37 | two names upper-case alike iff they have the same length and agree position by position up to ASCII case |
| PyStrings.CenterLeft | fetch_devices.py:95 | the left padding of `center` leaves room for the text, and the two sides differ by at most one |
| PyStrings.Center | fetch_devices.py:95 | `center(width, fill)` returns the text unchanged when it is already as wide; otherwise it is exactly `width` long, with the text at the left-padding offset and fill everywhere else |
| Ipv4.BroadcastInRange | fetch_devices.py:99 | the broadcast address of a /24 base is a valid 32-bit address with low byte 255 |
| Ipv4.Broadcast | fetch_devices.py:99-101 | the broadcast address of a /24 base is base+255, whose low byte is 255 |
| Ipv4.Hosts | fetch_devices.py:101 | `hosts()` of a /24 has 254 addresses |
| Ipv4.HostsOfNetwork | fetch_devices.py:99-101 | the hosts ascend strictly from base+1 to base+254; an address is a host iff it is in the same /24 and its low byte is neither 0 nor 255 |
| Ipv4.Octets | fetch_devices.py:102 | the four octets are the big-endian base-256 digits of the address: each is below 256, and weighting them by 2^24, 2^16, 2^8 and 1 gives back the address |
| Ipv4.OctetsInjective | fetch_devices.py:102 | equal octets mean equal addresses |
| Ipv4.Decimal | fetch_devices.py:102 | the decimal text of a number is a non-empty digit string with no leading zero: it starts with '0' only for 0; an octet takes one to three digits |
| Ipv4.DecimalRoundTrip | fetch_devices.py:102 | reading back the decimal text of n gives n |
| Ipv4.DecimalInjective | fetch_devices.py:102 | different numbers have different decimal text |
| Ipv4.SplitAtDot | fetch_devices.py:102 | a dotted text splits at its first dot in only one way when the part before the dot is digits |
| Ipv4.DottedQuad | fetch_devices.py:102 | `str(ip)` is 7 to 15 characters long; DottedQuadInjective states that it determines the address, and ExampleNetwork gives its value on two hosts |
| Ipv4.DottedQuadInjective | fetch_devices.py:102 | `str(ip)` is injective: different addresses never render the same |
| Ipv4.ExampleDecimals | fetch_devices.py:102 | 1, 192, 168 and 254 render as their usual decimal text |
| Ipv4.ExampleOctets | fetch_devices.py:102 | the octets of 192.168.1.1 and 192.168.1.254 |
| Ipv4.ExampleNetwork | fetch_devices.py:99-102 | the hosts of 192.168.1.0/24 render as 192.168.1.1 to 192.168.1.254 |
| Logging.Logger.constructor | fetch_devices.py:52 | a fresh logger has level NOTSET and no calls recorded |
| Logging.Logger.Log | fetch_devices.py:104 | a log call appends one message at its level and leaves the level alone |
| Logging.Logger.SetLevel | fetch_devices.py:45 | `setLevel` sets the level and records the call |
| LogLevel.LevelAttribute | fetch_devices.py:38 | `getattr(logging, name)` yields a level other than NOTSET and CRITICAL for each of the five accepted names |
| LogLevel.SelectLevel | fetch_devices.py:34-45 | the chosen level is always DEBUG, INFO, WARNING or ERROR; the notice is a warning iff the name is given but unrecognised; a recognised name gives its own level and anything else gives INFO |
| LogLevel.DefaultExactlyWhenUnset | fetch_devices.py:34-43 | a missing or empty name, and only such a name, gives INFO with the default message |
| LogLevel.CaseInsensitive | fetch_devices.py:36-37 | names equal up to case select the same level with the same notice, as their upper-case form does |
| LogLevel.LevelName | fetch_devices.py:37 | each selectable level has a name in the accepted list |
| LogLevel.NamesSelectTheirLevel | fetch_devices.py:37-39 | each selectable level is chosen by its own name in any case, with the "Setting log level to" notice; WARN and WARNING give the same level, and WARN is announced under its own name |
| LogLevel.WarnAlias | fetch_devices.py:37-39 | WARN and WARNING both select WARNING, each announced under its own name |
| LogLevel.UnrecognisedFallsBack | fetch_devices.py:40-41 | an unrecognised non-empty name gives INFO and one warning quoting the upper-cased name |
| LogLevel.CriticalRefused | fetch_devices.py:37-41 | "critical" is refused with a warning although logging defines CRITICAL |
| SshProbe.CaughtKinds | fetch_devices.py:87 | the except clause catches exactly authentication, SSH and socket errors; listing AuthenticationException adds nothing, since it subclasses SSHException |
| SshProbe.IsCaughtBy | fetch_devices.py:87 | an exception is caught when it is an instance of one of the handler classes; CaughtKinds states which kinds the source's handler tuple catches |
| SshProbe.CheckAccess | fetch_devices.py:83-89 | the probe answers True iff connect returns and False iff connect raises a caught kind; every other exception propagates unchanged |
| SshProbe.ProbeCalls | fetch_devices.py:84-85 | a probe first connects to its host, with the given credentials; it closes iff connect returned, and makes no other call |
| SshProbe.Network.constructor | fetch_devices.py:81 | a new client has made no calls |
| SshProbe.Network.Connect | fetch_devices.py:84 | connect yields the network's outcome for the host and records the call |
| SshProbe.Network.Close | fetch_devices.py:85 | close records the call |
| SubnetScan.Found | fetch_devices.py:101-105 | the kept hosts are never more than the probed ones |
| SubnetScan.FoundMembers | fetch_devices.py:101-105 | a host is kept iff it was probed and is accessible |
| SubnetScan.FoundIsSubsequence | fetch_devices.py:100-105 | the kept hosts appear in the order they were probed |
| SubnetScan.FoundNoDuplicates | fetch_devices.py:100-105 | keeping hosts from a list without repeats gives a list without repeats |
| SubnetScan.FirstAbort | fetch_devices.py:101-103 | the scan stops at the first host whose probe raises an uncaught exception, or runs to the end |
| SubnetScan.Rendered | fetch_devices.py:102 | each address gets one text |
| SubnetScan.RenderedMembers | fetch_devices.py:102 | an address is among the hosts iff its text is among their texts |
| SubnetScan.HostTextsDistinct | fetch_devices.py:99-102 | the texts of the 254 hosts are pairwise different |
| SubnetScan.ScanHosts | fetch_devices.py:101-106 | the scan of a list of host texts succeeds iff no probe raises an uncaught exception, and then returns the accessible hosts (`Found`); otherwise it fails with the exception of the first host whose probe raised one |
| SubnetScan.ScanResult | fetch_devices.py:99-106 | the value `find_devices_in_network` returns for a /24 base: a successful result has at most 254 hosts, and a failure carries an exception the except clause does not name |
| SubnetScan.ScanFailsOnlyOnUncaught | fetch_devices.py:83-106 | the scan succeeds iff no probe raises an uncaught exception; when it fails, the error is one the except clause does not name |
| SubnetScan.ScanKeepsHostOrder | fetch_devices.py:100-106 | a successful scan returns at most 254 hosts, none twice, in host order |
| SubnetScan.ScanListsAccessibleHosts | fetch_devices.py:99-106 | a successful scan lists an address iff it is a host of the network and accessible |
| SubnetScan.ScanSkipsNetworkAndBroadcast | fetch_devices.py:99-101 | the network address (.0) and broadcast address (.255) are never listed |
| SubnetScan.ScanSkipsNonHost | fetch_devices.py:99-106 | an address whose low byte is 0 or 255 is never listed |
| SubnetScan.ProbeTrace | fetch_devices.py:101-103 | the client calls of the scan: each probed host accounts for one or two calls; EachHostProbedOnce states that they connect to exactly the probed hosts, in order |
| SubnetScan.ConnectedHostsAppend | fetch_devices.py:84 | the hosts connected to by two call sequences, one after the other, are the two lists joined |
| SubnetScan.ProbeConnectsOnce | fetch_devices.py:84-85 | one probe connects exactly once, to its own host |
| SubnetScan.EachHostProbedOnce | fetch_devices.py:101-103 | the scan connects to each probed host exactly once, in ascending order, and to nothing else |
| SubnetScan.ScanStep | fetch_devices.py:101-105 | one more host adds itself to the kept hosts when accessible, and adds its probe calls to the trace |
| SubnetScan.StopsAt | fetch_devices.py:101-103 | a scan whose first abort is at host i fails with that exception; it has probed hosts up to i and kept those before i |
| SubnetScan.RunsToEnd | fetch_devices.py:101-106 | a scan without an abort probes every host and returns all the accessible ones |
| SubnetScan.BannerLayout | fetch_devices.py:95 | the banner is 100 characters: 31 stars, the notice, then 32 stars |
| SubnetScan.FoundEvents | fetch_devices.py:104 | one debug line per kept host; FoundEventsLines states what each line says |
| SubnetScan.FoundEventsLines | fetch_devices.py:104 | the i-th debug line is "Fount access with ip address: " followed by the i-th kept host |
| SubnetScan.FoundLine | fetch_devices.py:103-104 | a probe adds a debug line iff it answers true, and that line names its host |
| SubnetScan.FoundEventsAppend | fetch_devices.py:104 | keeping one more host logs one more debug line naming it |
| Report.DeviceLines | fetch_devices.py:116-117 | one INFO line per device, in list order |
| Report.ReportTrace | fetch_devices.py:112-117 | the calls `display_found_devices` makes on the logger; ReportShape states their shape |
| Report.ReportShape | fetch_devices.py:108-117 | the header comes first; an empty list, and only an empty list, gives the one "Empty list" error; otherwise one INFO line per device, in order |
| Devices.DeviceAccess.constructor | fetch_devices.py:18-23 | the object keeps its configuration, logger and network, then sets the level the configuration names, exactly as `SetLogLevel` does |
| Devices.DeviceAccess.SetLogLevel | fetch_devices.py:25-45 | logs the notice `SelectLevel` chooses, then calls `setLevel` exactly once with the chosen level |
| Devices.DeviceAccess.CheckSshAccess | fetch_devices.py:77-89 | answers as `CheckAccess` on the network's outcome for the host, making exactly the `ProbeCalls` calls |
| Devices.DeviceAccess.FindDevicesInNetwork | fetch_devices.py:91-106 | logs the banner. A base with host bits set raises before any probe. Otherwise the result is `ScanResult`, the calls are the probes of the hosts up to where the scan stops, and each kept host gets one debug line. The level is unchanged |
| Devices.DeviceAccess.ProbeHosts | fetch_devices.py:100-106 | the loop over the host texts gives `ScanHosts`, probes exactly the `Probed` hosts in order, and logs one line per host kept before the stop |
| Devices.DeviceAccess.ProbeHost | fetch_devices.py:102-104 | one pass of the loop: the probe answers as `CheckAccess`, makes the `ProbeCalls` calls, and adds the debug line exactly when it answers true |
| Devices.LoopStep | fetch_devices.py:101-106 | one pass over host i extends the call and message traces of hosts 0..i-1 to those of hosts 0..i; a probe that raises is where the scan stops |
| Devices.DeviceAccess.DisplayFoundDevices | fetch_devices.py:108-117 | logs exactly `ReportTrace` of the list and leaves the level unchanged |

## Left out

- The SSH handshake is not modelled. That covers port 22, the 2-second timeout and `AutoAddPolicy`. The result of `connect` for each host is a fixed parameter, the network's `reply` function.
- `load_config`, `configure_logging` and `main` are not modelled. The constructor takes the loaded configuration and the configured logger as parameters, and it takes the network that the SSH clients talk to. `check_ssh_access` creates a fresh SSH client for each probe; the model records the calls of all the probes on that one network object.
- The `network_ip` text is taken as an already parsed 32-bit address. Malformed text, which `IPv4Network` also rejects with ValueError, is not modelled.
- Devices.DeviceAccess.SetLogLevel: the default argument `'INFO'` of `set_log_level` is not modelled. Called with no argument, the source announces "Setting log level to INFO". The only caller in the source, `__init__`, always passes the configured value, which is None when the key is missing. The model's `SetLogLevel(Some("INFO"))` gives the same result as the omitted argument.
- Logging is modelled as the sequence of calls made on the logger. Level filtering, handlers and formatting, which decide what is printed, are not modelled.
- PyStrings.Upper: only ASCII a-z are upper-cased. Python's Unicode `upper` also maps characters such as the dotless ı to I, so some non-ASCII names it accepts are refused here. Non-ASCII letters also change the warning text. For "débug", Python quotes 'DÉBUG' and the model quotes 'DéBUG'.
- LogLevel.SelectLevel: the configured value is either missing or a string. A non-string YAML value, such as a number, would make `upper()` raise, and that case is not modelled.
- Devices.DeviceAccess.FindDevicesInNetwork: the hosts are rendered to text before the loop. `FindDevicesInNetwork` renders them and passes the texts to `ProbeHosts`. The source renders each host inside the loop; the calls and messages are the same.
- Four facts about the code shape the model:
  - The scan is sequential.
  - The probe answers a boolean, with no separate "rejected" outcome.
  - An exception other than the three caught kinds propagates and ends the scan.
  - The client is closed only after a successful connect.
- The code has no concurrency, cancellation or retries, so the model has none.
