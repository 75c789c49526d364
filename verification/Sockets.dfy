/**
 The sockets that decoys leave through: fs_rawsend_setup and fs_rawsend_cleanup, the interface
 binding with its cache, and the two ways to send. The kernel's side is modelled by the open
 descriptors with the mark and the real binding of each.
 */
module Sockets {
  import opened Wrappers
  import opened Context
  import opened Packets

  /** How opening one socket goes: socket() fails, a socket option fails, or neither. */
  datatype OpenOutcome = SocketFails | OptionFails | Opens

  datatype BindAttempt = Bound | NoSuchOption | Refused

  /** How binding goes: SO_BINDTOIFINDEX, and for old kernels the name lookup and SO_BINDTODEVICE. */
  datatype BindOutcome = BindOutcome(byIndex: BindAttempt, nameFound: bool, byName: bool)

  /** The kernel's side of an open socket: its mark, and the interface it is bound to, or 0. */
  datatype Socket = Socket(mark: uint32, boundTo: int)

  datatype Transmission =
    // AF_PACKET, to a hardware address
    | ViaLink(fd: int, mark: uint32, ifindex: nat, station: seq<byte>, frame: seq<byte>)
    // raw IP, over the bound interface
    | ViaIp(fd: int, mark: uint32, boundTo: int, dst: SockAddr, packet: seq<byte>)

  /** What the program knows about its bindings: how to bind, and the interface of each raw socket, or -1. */
  datatype BindState = BindState(byIndex: bool, if4: int, if6: int)

  /** Binding goes by index while the kernel knows that option, and by name otherwise. */
  predicate BindWorks(byIndex: bool, o: BindOutcome)
  {
    if byIndex && o.byIndex != NoSuchOption then o.byIndex == Bound else o.nameFound && o.byName
  }

  /** The raw socket for `daddr` is bound to the interface already, or can be bound to it now. */
  predicate CanBind(b: BindState, daddr: SockAddr, ifindex: nat, o: BindOutcome)
  {
    match daddr
    case Inet(_) => ifindex == b.if4 || BindWorks(b.byIndex, o)
    case Inet6(_) => ifindex == b.if6 || BindWorks(b.byIndex, o)
    case OtherFamily(_) => false
  }

  /** What is known after binding was tried, if it had to be. */
  function AfterBind(b: BindState, daddr: SockAddr, ifindex: nat, o: BindOutcome): BindState
  {
    var byIndex := b.byIndex && o.byIndex != NoSuchOption;
    match daddr
    case Inet(_) =>
      if ifindex == b.if4 then b
      else BindState(byIndex, if BindWorks(b.byIndex, o) then ifindex else b.if4, b.if6)
    case Inet6(_) =>
      if ifindex == b.if6 then b
      else BindState(byIndex, b.if4, if BindWorks(b.byIndex, o) then ifindex else b.if6)
    case OtherFamily(_) => b
  }

  class SocketSet {
    const cfg: Config
    var sockfd: int
    var sock4fd: int
    var sock4if: int
    var sock6fd: int
    var sock6if: int
    var useBindToIfindex: bool
    var bound: map<int, Socket>       // the open descriptors
    var nextFd: nat
    var sent: seq<Transmission>       // what the kernel accepted for sending

    ghost predicate IsOpen(fd: int)
      reads this
    {
      fd != -1 && fd in bound
    }

    /**
     A descriptor variable is -1 or open, no open descriptor is forgotten, every socket has the
     mark, and a cached interface is -1 or the socket's real binding.
     */
    ghost predicate Valid()
      reads this
    {
      && (sockfd == -1 || IsOpen(sockfd)) && (sock4fd == -1 || IsOpen(sock4fd)) && (sock6fd == -1 || IsOpen(sock6fd))
      && (sockfd != -1 ==> sockfd != sock4fd && sockfd != sock6fd) && (sock4fd != -1 ==> sock4fd != sock6fd)
      && (forall fd | fd in bound :: bound[fd].mark == cfg.numbers.fwmark)
      && (forall fd | fd in bound :: 0 <= fd < nextFd && (fd == sockfd || fd == sock4fd || fd == sock6fd))
      && (sock4if == -1 || (IsOpen(sock4fd) && bound[sock4fd].boundTo == sock4if))
      && (sock6if == -1 || (IsOpen(sock6fd) && bound[sock6fd].boundTo == sock6if))
    }

    ghost function Binds(): BindState
      reads this`useBindToIfindex, this`sock4if, this`sock6if
    {
      BindState(useBindToIfindex, sock4if, sock6if)
    }

    ghost predicate AllClosed()
      reads this
    {
      sockfd == sock4fd == sock6fd == -1 && sock4if == sock6if == -1 && bound == map[]
    }

    /** What the packet handler may rely on after set-up. */
    ghost predicate Ready()
      reads this
    {
      && (cfg.flags.outbound ==> IsOpen(sockfd))
      && (cfg.flags.inbound && cfg.flags.useIpv4 ==> IsOpen(sock4fd))
      && (cfg.flags.inbound && cfg.flags.useIpv6 ==> IsOpen(sock6fd))
    }

    constructor (cfg: Config)
      ensures Valid() && AllClosed() && this.cfg == cfg && sent == []
    {
      this.cfg := cfg;
      sockfd, sock4fd, sock6fd, sock4if, sock6if := -1, -1, -1, -1, -1;
      useBindToIfindex := true;
      bound, nextFd, sent := map[], 0, [];
    }

    /** A marked socket with its options set, or -1; a socket whose options fail is closed again. */
    method RawsockSetup(o: OpenOutcome) returns (fd: int)
      requires forall f | f in bound :: 0 <= f < nextFd
      modifies this`bound, this`nextFd
      ensures fd == -1 <==> o != Opens
      ensures fd == -1 ==> bound == old(bound)
      ensures fd != -1 ==> 0 <= fd && fd !in old(bound) && bound == old(bound)[fd := Socket(cfg.numbers.fwmark, 0)]
      ensures nextFd >= old(nextFd) && forall f | f in bound :: 0 <= f < nextFd
    {
      if o == SocketFails {
        return -1;
      }
      fd := nextFd;
      nextFd := nextFd + 1;
      bound := bound[fd := Socket(0, 0)];
      if o == OptionFails {
        bound := bound - {fd};
        return -1;
      }
      bound := bound[fd := Socket(cfg.numbers.fwmark, 0)];
    }

    /** Opens the sockets that the chosen directions and families need; after a failure none is left open. */
    method Setup(o: OpenOutcome, o4: OpenOutcome, o6: OpenOutcome) returns (ok: bool)
      requires Valid() && AllClosed()
      modifies this
      ensures Valid() && sent == old(sent)
      ensures ok ==> Ready()
      ensures ok <==> (cfg.flags.outbound ==> o == Opens) && (cfg.flags.inbound && cfg.flags.useIpv4 ==> o4 == Opens)
                      && (cfg.flags.inbound && cfg.flags.useIpv6 ==> o6 == Opens)
      ensures !ok ==> AllClosed()
    {
      if cfg.flags.outbound {
        sockfd := RawsockSetup(o);
        if sockfd < 0 {
          Cleanup();
          return false;
        }
      }
      if cfg.flags.inbound && cfg.flags.useIpv4 {
        sock4fd := RawsockSetup(o4);
        if sock4fd < 0 {
          Cleanup();
          return false;
        }
      }
      if cfg.flags.inbound && cfg.flags.useIpv6 {
        sock6fd := RawsockSetup(o6);
        if sock6fd < 0 {
          Cleanup();
          return false;
        }
      }
      ok := true;
    }

    method Cleanup()
      requires Valid()
      modifies this
      ensures Valid() && AllClosed() && sent == old(sent)
    {
      if sockfd >= 0 {
        bound := bound - {sockfd};
        sockfd := -1;
      }
      if sock4fd >= 0 {
        bound := bound - {sock4fd};
        sock4fd := -1;
      }
      sock4if := -1;
      if sock6fd >= 0 {
        bound := bound - {sock6fd};
        sock6fd := -1;
      }
      sock6if := -1;
      assert forall f | f in bound ::
               f in old(bound) && f != old(sockfd) && f != old(sock4fd) && f != old(sock6fd);
      assert bound.Keys == {};
    }

    /**
     Either the socket ends up bound to the interface, or its binding has not changed. By index as long
     as the kernel knows that option, and by name ever after it does not.
     */
    method BindIface(fd: int, ifindex: nat, o: BindOutcome) returns (ok: bool)
      requires fd in bound
      modifies this`bound, this`useBindToIfindex
      ensures ok <==> BindWorks(old(useBindToIfindex), o)
      ensures useBindToIfindex == (old(useBindToIfindex) && o.byIndex != NoSuchOption)
      ensures bound == if ok then old(bound)[fd := old(bound)[fd].(boundTo := ifindex)] else old(bound)
    {
      if useBindToIfindex {
        match o.byIndex {
          case NoSuchOption => useBindToIfindex := false;
          case Refused => return false;
          case Bound =>
            bound := bound[fd := bound[fd].(boundTo := ifindex)];
            return true;
        }
      }
      if !o.nameFound || !o.byName {
        return false;
      }
      bound := bound[fd := bound[fd].(boundTo := ifindex)];
      ok := true;
    }

    /** The IPv4 socket is bound to the interface, by now or from before; on failure its binding stays. */
    method Bind4(ifindex: nat, bind: BindOutcome) returns (ok: bool)
      requires Valid() && IsOpen(sock4fd)
      modifies this`bound, this`useBindToIfindex, this`sock4if
      ensures Valid() && bound.Keys == old(bound).Keys
      ensures ok ==> bound[sock4fd].boundTo == ifindex
      ensures ok <==> ifindex == old(sock4if) || BindWorks(old(useBindToIfindex), bind)
      ensures sock4if == if ok then ifindex else old(sock4if)
      ensures useBindToIfindex == (old(useBindToIfindex) && (ifindex == old(sock4if) || bind.byIndex != NoSuchOption))
    {
      if ifindex != sock4if {
        ok := BindIface(sock4fd, ifindex, bind);
        if !ok {
          return false;
        }
        sock4if := ifindex;
      }
      ok := true;
    }

    method Bind6(ifindex: nat, bind: BindOutcome) returns (ok: bool)
      requires Valid() && IsOpen(sock6fd)
      modifies this`bound, this`useBindToIfindex, this`sock6if
      ensures Valid() && bound.Keys == old(bound).Keys
      ensures ok ==> bound[sock6fd].boundTo == ifindex
      ensures ok <==> ifindex == old(sock6if) || BindWorks(old(useBindToIfindex), bind)
      ensures sock6if == if ok then ifindex else old(sock6if)
      ensures useBindToIfindex == (old(useBindToIfindex) && (ifindex == old(sock6if) || bind.byIndex != NoSuchOption))
    {
      if ifindex != sock6if {
        ok := BindIface(sock6fd, ifindex, bind);
        if !ok {
          return false;
        }
        sock6if := ifindex;
      }
      ok := true;
    }

    /**
     A raw IP send on the packet's own interface: whatever binds failed before, the socket is bound
     to `ifindex` when the packet leaves. It leaves exactly if the socket is or can be bound to it and
     the kernel takes the packet.
     */
    method SendtoSnat(ifindex: nat, daddr: SockAddr, packet: seq<byte>, bind: BindOutcome, accepted: bool)
      returns (ok: bool)
      requires Valid()
      requires daddr.Inet? ==> IsOpen(sock4fd)
      requires daddr.Inet6? ==> IsOpen(sock6fd)
      modifies this`bound, this`useBindToIfindex, this`sock4if, this`sock6if, this`sent
      ensures Valid() && bound.Keys == old(bound).Keys
      ensures ok <==> CanBind(old(Binds()), daddr, ifindex, bind) && accepted
      ensures Binds() == AfterBind(old(Binds()), daddr, ifindex, bind)
      ensures ok ==> !daddr.OtherFamily? &&
                     var fd := if daddr.Inet? then sock4fd else sock6fd;
                     sent == old(sent) + [ViaIp(fd, cfg.numbers.fwmark, ifindex, daddr, packet)]
      ensures !ok ==> sent == old(sent)
    {
      var fd;
      ok, fd := BindFor(ifindex, daddr, bind);
      if !ok || !accepted {
        return false;
      }
      sent := sent + [ViaIp(fd, bound[fd].mark, bound[fd].boundTo, daddr, packet)];
    }

    /** The raw socket of the family of `daddr`, bound to the interface. */
    method BindFor(ifindex: nat, daddr: SockAddr, bind: BindOutcome) returns (ok: bool, fd: int)
      requires Valid()
      requires daddr.Inet? ==> IsOpen(sock4fd)
      requires daddr.Inet6? ==> IsOpen(sock6fd)
      modifies this`bound, this`useBindToIfindex, this`sock4if, this`sock6if
      ensures Valid() && bound.Keys == old(bound).Keys
      ensures ok <==> CanBind(old(Binds()), daddr, ifindex, bind)
      ensures Binds() == AfterBind(old(Binds()), daddr, ifindex, bind)
      ensures ok ==> !daddr.OtherFamily? && fd == (if daddr.Inet? then sock4fd else sock6fd)
                     && IsOpen(fd) && bound[fd].boundTo == ifindex
    {
      match daddr {
        case Inet(_) =>
          fd := sock4fd;
          ok := Bind4(ifindex, bind);
        case Inet6(_) =>
          fd := sock6fd;
          ok := Bind6(ifindex, bind);
        case OtherFamily(_) =>
          return false, -1;
      }
    }

    /** A send on the packet socket, addressed to a station on an interface. */
    method SendtoLink(ifindex: nat, station: seq<byte>, packet: seq<byte>, accepted: bool) returns (ok: bool)
      requires Valid() && IsOpen(sockfd)
      modifies this`sent
      ensures ok == accepted
      ensures sent == if ok then old(sent) + [ViaLink(sockfd, cfg.numbers.fwmark, ifindex, station, packet)]
                      else old(sent)
    {
      if accepted {
        sent := sent + [ViaLink(sockfd, bound[sockfd].mark, ifindex, station, packet)];
      }
      ok := accepted;
    }
  }
}
