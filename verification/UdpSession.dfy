/** The UDP session as the object of udp.c, its fields updated in place. Every method does exactly
    what the state machine of Udp says. */
module UdpSession {
  import opened Words
  import opened Reassembly
  import opened DnsResponse
  import U = Udp
  import M = TcpModel

  class UdpSession {
    var state: U.State
    var open: bool
    var time: int
    const dest: u16
    const mss: u16
    var sent: nat
    var received: nat
    ghost var log: U.Log

    ghost function Machine(): U.Machine
      reads this
    {
      U.Machine(U.Udp(state, open, time, dest, mss, sent, received), log)
    }

    /** The session that `handle_udp` registers. */
    constructor (version: u8, dest: u16, now: int)
      ensures Machine() == U.NewSession(version, dest, now)
    {
      state, open, time := U.Active, true, now;
      this.dest, sent, received := dest, 0, 0;
      mss := if version == 4 then U.UDP4_MAXMSG else U.UDP6_MAXMSG;
      log := U.Log([], [], [], []);
    }

    /** `handle_udp` on a known session. */
    method HandleUdp(data: Payload, now: int, dhcp: bool, sendto: U.SendTo) returns (handled: bool)
      modifies this
      ensures Machine() == U.HandleUdp(old(Machine()), data, now, dhcp, sendto)
      ensures handled <==> old(state) == U.Active && (dhcp || !sendto.Broken?)
    {
      if state != U.Active {
        return false;
      }
      if dhcp {
        return true;
      }
      time := now;
      if sendto.Taken? {
        sent := sent + |data|;
        log := log.(accepted := log.accepted + [data]);
      } else if sendto.Broken? {
        state := U.Finishing;
        return false;
      }
      return true;
    }

    /** The part of `check_udp_socket` after a datagram arrived. */
    method TakeDatagram(data: Payload, ok: bool, policy: Policy)
      modifies this
      ensures Machine() == U.TakeDatagram(old(Machine()), data, ok, policy)
    {
      hide Parse;
      received := received + |data|;
      var out: Payload := data;
      if dest == U.DNS_PORT {
        var buffer := new u8[|data|](i requires 0 <= i < |data| => data[i]);
        assert buffer[..|data|] == data;
        var bytes, reports := ParseDnsResponse(buffer, |data|, policy.isBlocked, policy.rcode);
        out := buffer[..bytes];
      }
      log := log.(fetched := log.fetched + [data]);
      if ok {
        log := log.(out := log.out + [out]);
      }
      if !ok || dest == U.DNS_PORT {
        state := U.Finishing;
      }
    }

    /** `check_udp_socket`: an error of the socket, or a datagram to read. */
    method CheckUdpSocket(err: bool, now: int, recv: M.RecvResult, ok: bool, policy: Policy)
      requires open
      modifies this
      ensures Machine() == U.Step(old(Machine()), if err then U.SocketError(now) else U.Readable(now, recv, ok), policy)
    {
      hide U.TakeDatagram;
      time := now;
      if err {
        state := U.Finishing;
        return;
      }
      if recv.RecvError? {
        if !recv.retry {
          state := U.Finishing;
        }
      } else if recv.data == [] {
        state := U.Finishing;
      } else {
        TakeDatagram(if |recv.data| <= mss then recv.data else recv.data[..mss], ok, policy);
      }
    }

    /** `check_udp_session`; true if the session is to be freed. */
    method CheckUdpSession(now: int, timeout: int) returns (del: bool)
      modifies this
      ensures (Machine(), del) == U.CheckUdpSession(old(Machine()), now, timeout)
    {
      if state == U.Active && time + timeout < now {
        state := U.Finishing;
      }
      if state == U.Finishing {
        open := false;
        time := now;
        state := U.Closed;
      }
      if state == U.Closed && (sent > 0 || received > 0) {
        log := log.(usage := log.usage + [M.Usage(sent, received)]);
        sent, received := 0, 0;
      }
      del := (state == U.Closed || state == U.Blocked) && time + U.UDP_KEEP_TIMEOUT < now;
    }

    /** The UDP part of `check_allowed`. */
    method Disallow()
      modifies this
      ensures Machine() == U.DisallowUdp(old(Machine()))
    {
      if state == U.Active {
        state := U.Finishing;
      }
    }
  }
}
