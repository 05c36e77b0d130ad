/** What `DeviceAccess.find_devices_in_network` computes: the hosts of the
    /24 network, as dotted-quad text, probed in ascending order; the
    accessible ones kept; the scan cut short by the first exception the
    probe does not catch. */
module SubnetScan {
  import opened Wrappers
  import opened PyStrings
  import opened Ipv4
  import opened SshProbe
  import opened Logging

  /** The probe predicate: connect to ip returns. */
  predicate Accessible(reply: string -> ConnectOutcome, ip: string) {
    CheckAccess(reply(ip)) == Success(true)
  }

  /** The probe of ip raises an exception it does not catch. */
  predicate Aborts(reply: string -> ConnectOutcome, ip: string) {
    CheckAccess(reply(ip)).Failure?
  }

  /** The accessible hosts, in the order they are probed. */
  function Found(reply: string -> ConnectOutcome, ips: seq<string>): (found: seq<string>)
    ensures |found| <= |ips|
  {
    if ips == [] then []
    else
      var last := ips[|ips| - 1];
      Found(reply, ips[..|ips| - 1]) + if Accessible(reply, last) then [last] else []
  }

  /** The found hosts are exactly the accessible ones among the probed. */
  lemma {:induction false} FoundMembers(reply: string -> ConnectOutcome, ips: seq<string>, ip: string)
    ensures ip in Found(reply, ips) <==> ip in ips && Accessible(reply, ip)
  {
    if ips != [] {
      var init := ips[..|ips| - 1];
      FoundMembers(reply, init, ip);
      assert ips == init + [ips[|ips| - 1]];
    }
  }

  /** xs is ys with some elements left out, the rest in their order. */
  predicate IsSubsequence(xs: seq<string>, ys: seq<string>)
    decreases |ys|
  {
    if ys == [] then xs == []
    else
      || (xs != [] && xs[|xs| - 1] == ys[|ys| - 1] && IsSubsequence(xs[..|xs| - 1], ys[..|ys| - 1]))
      || IsSubsequence(xs, ys[..|ys| - 1])
  }

  /** Keeping the accessible hosts keeps their order. */
  lemma {:induction false} FoundIsSubsequence(reply: string -> ConnectOutcome, ips: seq<string>)
    ensures IsSubsequence(Found(reply, ips), ips)
  {
    if ips != [] {
      var init, last := ips[..|ips| - 1], ips[|ips| - 1];
      FoundIsSubsequence(reply, init);
      var f := Found(reply, init);
      assert ips[..|ips| - 1] == init;
      if Accessible(reply, last) {
        assert (f + [last])[..|f|] == f;
      } else {
        assert Found(reply, ips) == f;
      }
    }
  }

  predicate NoDuplicates(s: seq<string>) {
    forall i, j :: 0 <= i < j < |s| ==> s[i] != s[j]
  }

  /** Keeping some hosts of a list without repeats gives a list without
      repeats. */
  lemma {:induction false} FoundNoDuplicates(reply: string -> ConnectOutcome, ips: seq<string>)
    requires NoDuplicates(ips)
    ensures NoDuplicates(Found(reply, ips))
  {
    if ips != [] {
      var init, last := ips[..|ips| - 1], ips[|ips| - 1];
      assert NoDuplicates(init);
      FoundNoDuplicates(reply, init);
      FoundMembers(reply, init, last);
    }
  }

  /** The index of the first host whose probe raises an uncaught exception,
      or the number of hosts when there is none. */
  function FirstAbort(reply: string -> ConnectOutcome, ips: seq<string>): (k: nat)
    ensures k <= |ips|
    ensures forall j :: 0 <= j < k ==> !Aborts(reply, ips[j])
    ensures k < |ips| ==> Aborts(reply, ips[k])
  {
    if ips == [] then 0
    else if Aborts(reply, ips[0]) then 0
    else 1 + FirstAbort(reply, ips[1..])
  }

  /** `str(ip)` of each address. */
  function Rendered(addrs: seq<Address>): (ips: seq<string>)
    ensures |ips| == |addrs|
  {
    seq(|addrs|, i requires 0 <= i < |addrs| => DottedQuad(addrs[i]))
  }

  /** An address is among the addresses exactly when its text is among
      their texts. */
  lemma RenderedMembers(addrs: seq<Address>, a: Address)
    ensures DottedQuad(a) in Rendered(addrs) <==> a in addrs
  {
    var ips := Rendered(addrs);
    if DottedQuad(a) in ips {
      var i :| 0 <= i < |ips| && ips[i] == DottedQuad(a);
      DottedQuadInjective(addrs[i], a);
    }
    if a in addrs {
      var i :| 0 <= i < |addrs| && addrs[i] == a;
      assert ips[i] == DottedQuad(a);
    }
  }

  /** The texts of the hosts of a network are all different. */
  lemma HostTextsDistinct(base: Address)
    requires IsNetwork24(base)
    ensures NoDuplicates(Rendered(Hosts(base)))
  {
    var hs := Hosts(base);
    var ips := Rendered(hs);
    HostsOfNetwork(base, base);
    forall i, j | 0 <= i < j < |ips|
      ensures ips[i] != ips[j]
    {
      if ips[i] == ips[j] {
        DottedQuadInjective(hs[i], hs[j]);
      }
    }
  }

  /** What the scan of the host texts returns: the accessible ones, or the
      exception of the first probe that raises one it does not catch. */
  function ScanHosts(reply: string -> ConnectOutcome, ips: seq<string>): (r: Result<seq<string>, ExceptionKind>)
    ensures r.Success? <==> forall j :: 0 <= j < |ips| ==> !Aborts(reply, ips[j])
    ensures r.Success? ==> r.value == Found(reply, ips)
    ensures r.Failure? ==>
              exists k :: 0 <= k < |ips| && Aborts(reply, ips[k]) && r.error == reply(ips[k]).error
                          && forall j :: 0 <= j < k ==> !Aborts(reply, ips[j])
  {
    var k := FirstAbort(reply, ips);
    if k == |ips| then Success(Found(reply, ips)) else Failure(reply(ips[k]).error)
  }

  /** The hosts the scan probes: all of them, or those up to and including
      the first that raises an uncaught exception. */
  function Probed(reply: string -> ConnectOutcome, ips: seq<string>): seq<string> {
    var k := FirstAbort(reply, ips);
    if k < |ips| then ips[..k + 1] else ips
  }

  /** The accessible hosts found before the scan ends. */
  function FoundBeforeStop(reply: string -> ConnectOutcome, ips: seq<string>): seq<string> {
    Found(reply, ips[..FirstAbort(reply, ips)])
  }

  /** What the scan returns for network `base`. */
  function ScanResult(reply: string -> ConnectOutcome, base: Address): (r: Result<seq<string>, ExceptionKind>)
    requires IsNetwork24(base)
    ensures r.Success? ==> |r.value| <= 254
    ensures r.Failure? ==> r.error == OtherError
  {
    var r := ScanHosts(reply, Rendered(Hosts(base)));
    if r.Failure? then CaughtKinds(r.error); r else r
  }

  /** The scan succeeds exactly when no probe raises an uncaught exception;
      otherwise it fails with that exception, one the except clause does
      not name. */
  lemma ScanFailsOnlyOnUncaught(reply: string -> ConnectOutcome, base: Address)
    requires IsNetwork24(base)
    ensures var ips := Rendered(Hosts(base));
            ScanResult(reply, base).Success? <==> forall j :: 0 <= j < |ips| ==> !Aborts(reply, ips[j])
    ensures ScanResult(reply, base).Failure? ==> ScanResult(reply, base).error == OtherError
  {
    var ips := Rendered(Hosts(base));
    var k := FirstAbort(reply, ips);
    if k < |ips| {
      CaughtKinds(reply(ips[k]).error);
    }
  }

  /** A successful scan lists at most 254 hosts, none twice, in the order of
      the network's hosts. */
  lemma ScanKeepsHostOrder(reply: string -> ConnectOutcome, base: Address)
    requires IsNetwork24(base)
    ensures var r := ScanResult(reply, base);
            r.Success? ==>
              && |r.value| <= 254
              && NoDuplicates(r.value)
              && IsSubsequence(r.value, Rendered(Hosts(base)))
  {
    var ips := Rendered(Hosts(base));
    HostTextsDistinct(base);
    FoundNoDuplicates(reply, ips);
    FoundIsSubsequence(reply, ips);
  }

  /** A successful scan lists exactly the accessible hosts of the network. */
  lemma ScanListsAccessibleHosts(reply: string -> ConnectOutcome, base: Address, a: Address)
    requires IsNetwork24(base)
    ensures var r := ScanResult(reply, base);
            r.Success? ==>
              (DottedQuad(a) in r.value <==> a in Hosts(base) && Accessible(reply, DottedQuad(a)))
  {
    var ips := Rendered(Hosts(base));
    FoundMembers(reply, ips, DottedQuad(a));
    RenderedMembers(Hosts(base), a);
  }

  /** A successful scan never lists the network or the broadcast address. */
  lemma ScanSkipsNetworkAndBroadcast(reply: string -> ConnectOutcome, base: Address)
    requires IsNetwork24(base)
    ensures var r := ScanResult(reply, base);
            r.Success? ==> DottedQuad(base) !in r.value && DottedQuad(Broadcast(base)) !in r.value
  {
    var broadcast := Broadcast(base);
    var r := ScanResult(reply, base);
    if r.Success? {
      assert DottedQuad(base) !in r.value by {
        ScanSkipsNonHost(reply, base, base);
      }
      assert DottedQuad(broadcast) !in r.value by {
        ScanSkipsNonHost(reply, base, broadcast);
      }
    }
  }

  /** An address whose low byte is 0 or 255 is never listed. */
  lemma ScanSkipsNonHost(reply: string -> ConnectOutcome, base: Address, a: Address)
    requires IsNetwork24(base) && (a % 256 == 0 || a % 256 == 255)
    ensures var r := ScanResult(reply, base);
            r.Success? ==> DottedQuad(a) !in r.value
  {
    HostsOfNetwork(base, a);
    ScanListsAccessibleHosts(reply, base, a);
  }

  /** The client calls the scan makes for the probed hosts, in order. */
  function ProbeTrace(reply: string -> ConnectOutcome, username: string, password: string,
                      ips: seq<string>): (calls: seq<Call>)
    ensures |ips| <= |calls| <= 2 * |ips|
  {
    if ips == [] then []
    else
      var ip := ips[|ips| - 1];
      ProbeTrace(reply, username, password, ips[..|ips| - 1]) + ProbeCalls(ip, username, password, reply(ip))
  }

  /** The hosts a sequence of client calls connects to, in order. */
  function ConnectedHosts(calls: seq<Call>): seq<string> {
    if calls == [] then []
    else
      var last := calls[|calls| - 1];
      ConnectedHosts(calls[..|calls| - 1]) + if last.Connect? then [last.host] else []
  }

  lemma {:induction false} ConnectedHostsAppend(xs: seq<Call>, ys: seq<Call>)
    ensures ConnectedHosts(xs + ys) == ConnectedHosts(xs) + ConnectedHosts(ys)
  {
    if ys == [] {
      assert xs + ys == xs;
    } else {
      assert (xs + ys)[..|xs + ys| - 1] == xs + ys[..|ys| - 1];
      ConnectedHostsAppend(xs, ys[..|ys| - 1]);
    }
  }

  /** One probe connects once, to its host. */
  lemma ProbeConnectsOnce(ip: string, username: string, password: string, o: ConnectOutcome)
    ensures ConnectedHosts(ProbeCalls(ip, username, password, o)) == [ip]
  {
    var calls := ProbeCalls(ip, username, password, o);
    assert calls[..1] == [Connect(ip, username, password)];
    assert ConnectedHosts(calls[..1]) == [ip] by {
      assert calls[..1][..0] == [];
    }
    if |calls| == 2 {
      assert calls[..|calls| - 1] == calls[..1];
    }
  }

  /** The scan connects to each probed host exactly once, in the order the
      hosts come, and to nothing else. */
  lemma {:induction false} EachHostProbedOnce(reply: string -> ConnectOutcome, username: string,
                                              password: string, ips: seq<string>)
    ensures ConnectedHosts(ProbeTrace(reply, username, password, ips)) == ips
  {
    if ips != [] {
      var init, ip := ips[..|ips| - 1], ips[|ips| - 1];
      var before, probe := ProbeTrace(reply, username, password, init), ProbeCalls(ip, username, password, reply(ip));
      calc {
        ConnectedHosts(ProbeTrace(reply, username, password, ips));
        ConnectedHosts(before + probe);
        { ConnectedHostsAppend(before, probe); }
        ConnectedHosts(before) + ConnectedHosts(probe);
        { EachHostProbedOnce(reply, username, password, init);
          ProbeConnectsOnce(ip, username, password, reply(ip)); }
        init + [ip];
        ips;
      }
    }
  }

  /** One more host probed: how the found hosts and the client calls grow. */
  lemma ScanStep(reply: string -> ConnectOutcome, username: string, password: string,
                 ips: seq<string>, i: nat)
    requires i < |ips|
    ensures var ip := ips[i];
            && Found(reply, ips[..i + 1]) == Found(reply, ips[..i]) + (if Accessible(reply, ip) then [ip] else [])
            && ProbeTrace(reply, username, password, ips[..i + 1])
               == ProbeTrace(reply, username, password, ips[..i]) + ProbeCalls(ip, username, password, reply(ip))
  {
    assert ips[..i + 1][..i] == ips[..i];
  }

  /** The scan stops at host i when the hosts before it did not abort and
      it does: it probed the hosts up to i and found those before i. */
  lemma StopsAt(reply: string -> ConnectOutcome, ips: seq<string>, i: nat)
    requires i < |ips|
    requires forall j :: 0 <= j < i ==> !Aborts(reply, ips[j])
    requires Aborts(reply, ips[i])
    ensures ScanHosts(reply, ips) == Failure(reply(ips[i]).error)
    ensures Probed(reply, ips) == ips[..i + 1]
    ensures FoundBeforeStop(reply, ips) == Found(reply, ips[..i])
  {
    assert FirstAbort(reply, ips) == i;
  }

  /** A scan in which no probe aborts probes every host. */
  lemma RunsToEnd(reply: string -> ConnectOutcome, ips: seq<string>)
    requires forall j :: 0 <= j < |ips| ==> !Aborts(reply, ips[j])
    ensures ScanHosts(reply, ips) == Success(Found(reply, ips))
    ensures Probed(reply, ips) == ips
    ensures FoundBeforeStop(reply, ips) == Found(reply, ips)
  {
    assert FirstAbort(reply, ips) == |ips|;
    assert ips[..|ips|] == ips;
  }

  /** The debug banner: the notice centred in 100 characters of '*'. */
  const Notice: string := "This process can take upto 5 minutes."
  const Banner: string := Center(Notice, 100, '*')

  /** 31 stars, the notice, 32 stars. */
  lemma BannerLayout()
    ensures |Notice| == 37 && |Banner| == 100
    ensures Banner[31..68] == Notice
    ensures forall i :: 0 <= i < 31 || 68 <= i < 100 ==> Banner[i] == '*'
  {
    assert CenterLeft(37, 100) == 31;
  }

  function FoundMessage(ip: string): string {
    "Fount access with ip address: " + ip
  }

  /** The debug line a probe adds: one naming ip when it answers true. */
  function FoundLine(access: Result<bool, ExceptionKind>, ip: string): (events: seq<Event>)
    ensures events != [] <==> access == Success(true)
    ensures events != [] ==> events == [Logged(Debug, FoundMessage(ip))]
  {
    if access == Success(true) then [Logged(Debug, FoundMessage(ip))] else []
  }

  lemma FoundEventsAppend(devices: seq<string>, ip: string)
    ensures FoundEvents(devices + [ip]) == FoundEvents(devices) + [Logged(Debug, FoundMessage(ip))]
  {
    assert (devices + [ip])[..|devices|] == devices;
  }

  /** One debug message per accessible host, in order. */
  function FoundEvents(devices: seq<string>): (events: seq<Event>)
    ensures |events| == |devices|
  {
    if devices == [] then []
    else FoundEvents(devices[..|devices| - 1]) + [Logged(Debug, FoundMessage(devices[|devices| - 1]))]
  }

  /** The i-th debug line names the i-th kept host. */
  lemma {:induction false} FoundEventsLines(devices: seq<string>)
    ensures forall i :: 0 <= i < |devices| ==>
              FoundEvents(devices)[i] == Logged(Debug, FoundMessage(devices[i]))
  {
    if devices != [] {
      var init := devices[..|devices| - 1];
      FoundEventsLines(init);
      forall i | 0 <= i < |devices|
        ensures FoundEvents(devices)[i] == Logged(Debug, FoundMessage(devices[i]))
      {
        if i < |init| {
          assert devices[i] == init[i];
        }
      }
    }
  }
}
