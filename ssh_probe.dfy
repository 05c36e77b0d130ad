/** One SSH probe, `DeviceAccess.check_ssh_access`, with paramiko's
    `SSHClient.connect` replaced by the outcome the network gives. */
module SshProbe {
  import opened Wrappers

  /** What `connect` can raise. AuthRejected is paramiko's
      AuthenticationException; SshProtocolError any other SSHException;
      SocketError an OSError (`socket.error`: refused, timed out,
      unreachable); OtherError anything else. */
  datatype ExceptionKind = AuthRejected | SshProtocolError | SocketError | OtherError

  /** The classes named in the `except` clause. */
  datatype ExceptionClass = AuthenticationExceptionClass | SshExceptionClass | SocketErrorClass

  /** `isinstance(e, cls)`: AuthenticationException is a subclass of
      SSHException. */
  predicate IsInstance(e: ExceptionKind, cls: ExceptionClass) {
    match cls
    case AuthenticationExceptionClass => e == AuthRejected
    case SshExceptionClass => e == AuthRejected || e == SshProtocolError
    case SocketErrorClass => e == SocketError
  }

  /** The handler tuple of the probe: the authentication failure, any SSH
      error and any socket error, in that order. */
  const Handled: seq<ExceptionClass> :=
    [AuthenticationExceptionClass, SshExceptionClass, SocketErrorClass]

  predicate IsCaughtBy(e: ExceptionKind, handlers: seq<ExceptionClass>) {
    exists i :: 0 <= i < |handlers| && IsInstance(e, handlers[i])
  }

  /** The except clause catches exactly the three named kinds, and would
      catch the same with AuthenticationException left out of it. */
  lemma CaughtKinds(e: ExceptionKind)
    ensures IsCaughtBy(e, Handled) <==> e != OtherError
    ensures IsCaughtBy(e, Handled) <==> IsCaughtBy(e, [SshExceptionClass, SocketErrorClass])
  {
    var shorter := [SshExceptionClass, SocketErrorClass];
    match e
    case AuthRejected =>
      assert IsInstance(e, Handled[0]) && IsInstance(e, shorter[0]);
    case SshProtocolError =>
      assert IsInstance(e, Handled[1]) && IsInstance(e, shorter[0]);
    case SocketError =>
      assert IsInstance(e, Handled[2]) && IsInstance(e, shorter[1]);
    case OtherError =>
  }

  /** What `ssh.connect(ip, ...)` does: it returns, or it raises. */
  datatype ConnectOutcome = Connected | Raised(error: ExceptionKind)

  /** The value of `check_ssh_access`: True when connect returns, False for
      a caught exception; any other exception propagates. */
  function CheckAccess(o: ConnectOutcome): (r: Result<bool, ExceptionKind>)
    ensures r == Success(true) <==> o == Connected
    ensures r == Success(false) <==> o.Raised? && IsCaughtBy(o.error, Handled)
    ensures r.Failure? <==> o.Raised? && !IsCaughtBy(o.error, Handled)
    ensures r.Failure? ==> r.error == o.error
  {
    match o
    case Connected => Success(true)
    case Raised(e) => if IsCaughtBy(e, Handled) then Success(false) else Failure(e)
  }

  /** A call the probe makes on the SSH client. */
  datatype Call = Connect(host: string, username: string, password: string) | Close(host: string)

  /** The calls one probe makes: connect, then close only when connect
      returned. */
  function ProbeCalls(host: string, username: string, password: string, o: ConnectOutcome): (calls: seq<Call>)
    ensures 1 <= |calls| <= 2 && calls[0] == Connect(host, username, password)
    ensures Close(host) in calls <==> o == Connected
    ensures forall c :: c in calls && c.Close? ==> CheckAccess(o) == Success(true)
  {
    [Connect(host, username, password)] + if o == Connected then [Close(host)] else []
  }

  /** The SSH side of the network: `reply` says how `connect` to each host
      ends; `calls` records the client calls made so far. */
  class Network {
    const reply: string -> ConnectOutcome
    var calls: seq<Call>

    constructor (reply: string -> ConnectOutcome)
      ensures this.reply == reply && calls == []
    {
      this.reply := reply;
      calls := [];
    }

    /** `ssh.connect(host, port=22, username, password, timeout=2)`. */
    method Connect(host: string, username: string, password: string) returns (o: ConnectOutcome)
      modifies this
      ensures o == reply(host)
      ensures calls == old(calls) + [Call.Connect(host, username, password)]
    {
      o := reply(host);
      calls := calls + [Call.Connect(host, username, password)];
    }

    /** `ssh.close()` after a connection to host. */
    method Close(host: string)
      modifies this
      ensures calls == old(calls) + [Call.Close(host)]
    {
      calls := calls + [Call.Close(host)];
    }
  }
}
