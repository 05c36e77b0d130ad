/** `DeviceAccess`: the object that sets the log level, probes the hosts of
    the configured /24 network over SSH and logs the ones it can reach.
    The logger and the SSH side of the network are the objects it changes. */
module Devices {
  import opened Wrappers
  import opened PyStrings
  import opened Ipv4
  import opened Logging
  import opened SshProbe
  import opened LogLevel
  import opened SubnetScan
  import opened Report

  /** The loaded configuration; the network address is already a number,
      not yet checked to be the base of a /24. */
  datatype Config = Config(networkIp: Address, username: string, password: string, logLevel: Option<string>)

  /** Regrouping of the appended traces, stated for the loop proof of
      `ProbeHosts`, which otherwise takes too long to find it. */
  lemma AppendAssoc<T>(a: seq<T>, b: seq<T>, c: seq<T>)
    ensures (a + b) + c == a + (b + c)
  {
  }

  /** One pass of the scan loop over host i, in terms of the traces: the
      probe's calls and line extend the traces of hosts 0..i-1 to those of
      hosts 0..i, and a probe that raises is where the scan stops. */
  lemma LoopStep(reply: string -> ConnectOutcome, username: string, password: string,
                 ips: seq<string>, i: nat, calls0: seq<Call>, events0: seq<Event>,
                 devices: seq<string>, access: Result<bool, ExceptionKind>)
    requires i < |ips| && i <= FirstAbort(reply, ips)
    requires devices == Found(reply, ips[..i])
    requires access == CheckAccess(reply(ips[i]))
    ensures var ip := ips[i];
            calls0 + ProbeTrace(reply, username, password, ips[..i]) + ProbeCalls(ip, username, password, reply(ip))
            == calls0 + ProbeTrace(reply, username, password, ips[..i + 1])
    ensures access.Success? ==>
              var ip := ips[i];
              var kept := devices + if access.value then [ip] else [];
              && i + 1 <= FirstAbort(reply, ips)
              && kept == Found(reply, ips[..i + 1])
              && events0 + FoundEvents(devices) + FoundLine(access, ip) == events0 + FoundEvents(kept)
    ensures access.Failure? ==>
              && ScanHosts(reply, ips) == Failure(access.error)
              && Probed(reply, ips) == ips[..i + 1]
              && events0 + FoundEvents(devices) + FoundLine(access, ips[i])
                 == events0 + FoundEvents(FoundBeforeStop(reply, ips))
  {
    var ip := ips[i];
    ScanStep(reply, username, password, ips, i);
    AppendAssoc(calls0, ProbeTrace(reply, username, password, ips[..i]),
                ProbeCalls(ip, username, password, reply(ip)));
    AppendAssoc(events0, FoundEvents(devices), FoundLine(access, ip));
    if access.Failure? {
      StopsAt(reply, ips, i);
      assert FoundLine(access, ip) == [];
    } else if access.value {
      FoundEventsAppend(devices, ip);
    } else {
      assert FoundLine(access, ip) == [];
      assert devices + [] == devices;
    }
  }

  class DeviceAccess {
    const config: Config
    const logger: Logger
    const network: Network

    /** `__init__` with the configuration already loaded and the logger
        already configured: keep them, then set the level the
        configuration names. */
    constructor (config: Config, logger: Logger, network: Network)
      modifies logger
      ensures this.config == config && this.logger == logger && this.network == network
      ensures var c := SelectLevel(config.logLevel);
              && logger.events == old(logger.events) + [c.notice, LevelSet(c.level)]
              && logger.level == c.level
    {
      this.config := config;
      this.logger := logger;
      this.network := network;
      new;
      SetLogLevel(config.logLevel);
    }

    /** `set_log_level`: log one notice, then set the level exactly once. */
    method SetLogLevel(configured: Option<string>)
      modifies logger
      ensures var c := SelectLevel(configured);
              && logger.events == old(logger.events) + [c.notice, LevelSet(c.level)]
              && logger.level == c.level
    {
      var level := Info;
      if configured.Some? && configured.value != "" {
        var name := Upper(configured.value);
        if name in KnownNames {
          level := LevelAttribute(name).value;
          logger.Log(Info, ChosenMessage(name));
        } else {
          logger.Log(Warning, InvalidMessage(name));
        }
      } else {
        logger.Log(Info, DefaultMessage);
      }
      logger.SetLevel(level);
    }

    /** `check_ssh_access`: connect; close and answer true when connect
        returns; answer false for a caught exception; otherwise raise. */
    method CheckSshAccess(ip: string, username: string, password: string) returns (r: Result<bool, ExceptionKind>)
      modifies network
      ensures r == CheckAccess(network.reply(ip))
      ensures network.calls == old(network.calls) + ProbeCalls(ip, username, password, network.reply(ip))
    {
      var outcome := network.Connect(ip, username, password);
      match outcome
      case Connected =>
        network.Close(ip);
        r := Success(true);
      case Raised(e) =>
        if IsCaughtBy(e, Handled) {
          r := Success(false);
        } else {
          r := Failure(e);
        }
    }

    /** `find_devices_in_network`: log the banner, probe the text of every
        host of the network in ascending order, keep each accessible one;
        an uncaught exception ends the scan and propagates. A base address
        with host bits set makes `IPv4Network` raise ValueError, which
        nothing catches, before any host is probed. */
    method FindDevicesInNetwork() returns (r: Result<seq<string>, ExceptionKind>)
      modifies logger, network
      ensures !IsNetwork24(config.networkIp) ==>
                && r == Failure(OtherError)
                && network.calls == old(network.calls)
                && logger.events == old(logger.events) + [Logged(Debug, Banner)]
      ensures IsNetwork24(config.networkIp) ==>
                var ips := Rendered(Hosts(config.networkIp));
                && r == ScanResult(network.reply, config.networkIp)
                && network.calls == old(network.calls)
                     + ProbeTrace(network.reply, config.username, config.password, Probed(network.reply, ips))
                && logger.events == old(logger.events) + [Logged(Debug, Banner)]
                     + FoundEvents(FoundBeforeStop(network.reply, ips))
      ensures logger.level == old(logger.level)
    {
      logger.Log(Debug, Banner);
      if !IsNetwork24(config.networkIp) {
        r := Failure(OtherError);
        return;
      }
      r := ProbeHosts(Rendered(Hosts(config.networkIp)));
    }

    /** The loop of `find_devices_in_network` over the host texts: probe
        each in order, log and keep each accessible one, stop at the first
        uncaught exception. */
    method ProbeHosts(ips: seq<string>) returns (r: Result<seq<string>, ExceptionKind>)
      modifies logger, network
      ensures r == ScanHosts(network.reply, ips)
      ensures network.calls == old(network.calls)
                + ProbeTrace(network.reply, config.username, config.password, Probed(network.reply, ips))
      ensures logger.events == old(logger.events) + FoundEvents(FoundBeforeStop(network.reply, ips))
      ensures logger.level == old(logger.level)
    {
      var username, password := config.username, config.password;
      var devices: seq<string> := [];
      ghost var reply := network.reply;
      ghost var calls0, events0 := network.calls, logger.events;
      var i := 0;
      while i < |ips|
        invariant 0 <= i <= |ips|
        invariant i <= FirstAbort(reply, ips)
        invariant devices == Found(reply, ips[..i])
        invariant network.calls == calls0 + ProbeTrace(reply, username, password, ips[..i])
        invariant logger.events == events0 + FoundEvents(devices)
        invariant logger.level == old(logger.level)
      {
        var ip := ips[i];
        var access := ProbeHost(ip);
        LoopStep(reply, username, password, ips, i, calls0, events0, devices, access);
        if access.Failure? {
          r := Failure(access.error);
          return;
        }
        if access.value {
          devices := devices + [ip];
        }
        i := i + 1;
      }
      assert ips[..i] == ips;
      RunsToEnd(reply, ips);
      r := Success(devices);
    }

    /** One pass of the loop of `find_devices_in_network`: probe ip, and
        log it when the probe answers true. */
    method ProbeHost(ip: string) returns (access: Result<bool, ExceptionKind>)
      modifies logger, network
      ensures access == CheckAccess(network.reply(ip))
      ensures network.calls == old(network.calls)
                + ProbeCalls(ip, config.username, config.password, network.reply(ip))
      ensures logger.events == old(logger.events) + FoundLine(access, ip)
      ensures logger.level == old(logger.level)
    {
      access := CheckSshAccess(ip, config.username, config.password);
      if access == Success(true) {
        logger.Log(Debug, FoundMessage(ip));
      }
    }

    /** `display_found_devices`: the header, then the error for an empty
        list or one line per device. */
    method DisplayFoundDevices(devices: seq<string>)
      modifies logger
      ensures logger.events == old(logger.events) + ReportTrace(devices)
      ensures logger.level == old(logger.level)
    {
      logger.Log(Info, Header);
      if devices == [] {
        logger.Log(Error, EmptyMessage);
        return;
      }
      var i := 0;
      while i < |devices|
        invariant 0 <= i <= |devices|
        invariant logger.events == old(logger.events) + [Logged(Info, Header)] + DeviceLines(devices[..i])
        invariant logger.level == old(logger.level)
      {
        assert devices[..i + 1][..i] == devices[..i];
        logger.Log(Info, devices[i]);
        i := i + 1;
      }
      assert devices[..i] == devices;
    }
  }
}
