/** What `DeviceAccess.display_found_devices` logs for a device list. */
module Report {
  import opened Logging

  const Header: string := "Devices with SSH access:"
  const EmptyMessage: string := "Empty list"

  /** One INFO message per device, in list order. */
  function DeviceLines(devices: seq<string>): (events: seq<Event>)
    ensures |events| == |devices|
    ensures forall i :: 0 <= i < |devices| ==> events[i] == Logged(Info, devices[i])
  {
    if devices == [] then []
    else DeviceLines(devices[..|devices| - 1]) + [Logged(Info, devices[|devices| - 1])]
  }

  /** The header, then either the error for an empty list or the devices. */
  function ReportTrace(devices: seq<string>): seq<Event> {
    [Logged(Info, Header)] + if devices == [] then [Logged(Error, EmptyMessage)] else DeviceLines(devices)
  }

  /** The header always comes first. An empty list, and only an empty list,
      yields the one "Empty list" error and nothing more; a non-empty list
      yields one INFO line per device, in list order, and no error. */
  lemma ReportShape(devices: seq<string>)
    ensures var t := ReportTrace(devices);
            && |t| == 1 + (if devices == [] then 1 else |devices|)
            && t[0] == Logged(Info, Header)
            && (devices == [] ==> t[1..] == [Logged(Error, EmptyMessage)])
            && (forall i :: 0 <= i < |devices| ==> t[i + 1] == Logged(Info, devices[i]))
            && ((exists e :: e in t && e.level == Error) <==> devices == [])
  {
    var t := ReportTrace(devices);
    if devices == [] {
      assert t[1] in t && t[1].level == Error;
    } else {
      forall e | e in t
        ensures e.level != Error
      {
        var i :| 0 <= i < |t| && t[i] == e;
        if i > 0 {
          assert t[i] == Logged(Info, devices[i - 1]);
        }
      }
    }
  }
}
