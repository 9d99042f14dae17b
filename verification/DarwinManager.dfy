/** darwinRouteManager as the object that the macOS cmdVpn drives. */
module DarwinManager {
  import opened Text
  import opened RouteTable
  import Spec = DarwinRoutes

  class DarwinRouteManager {
    const tunName: string
    const peerIP: string
    const defGw: string
    const denote: Spec.Syntax
    var addedCtrlBypass: seq<string>
    var addedDNSBypass: seq<string>
    var addedExcludes: seq<Spec.AddedRoute>
    var addedSplits: seq<Spec.SplitRoute>
    var addedExtra: seq<Spec.AddedRoute>
    var addedDNSTun: seq<Spec.AddedRoute>
    var killSwitch: bool
    var killSwitchAdded: bool
    var kernel: Kernel  // the routing table that the commands act on

    ghost function State(): Spec.State
      reads this
    {
      Spec.State(tunName, peerIP, defGw, denote, addedCtrlBypass, addedDNSBypass,
                 addedExcludes, addedSplits, addedExtra, addedDNSTun,
                 killSwitch, killSwitchAdded, kernel)
    }

    constructor (tunName: string, peerIP: string, defGw: string, denote: Spec.Syntax, kernel: Kernel)
      ensures State() == Spec.State(tunName, peerIP, defGw, denote, [], [], [], [], [], [],
                                    false, false, kernel)
    {
      this.tunName, this.peerIP, this.defGw := tunName, peerIP, defGw;
      this.denote, this.kernel := denote, kernel;
      addedCtrlBypass, addedDNSBypass, addedExcludes := [], [], [];
      addedSplits, addedExtra, addedDNSTun := [], [], [];
      killSwitch, killSwitchAdded := false, false;
    }

    method RunAdd(dest: Option<Prefix>, hop: NextHop) returns (out: Outcome)
      modifies this`kernel
      ensures kernel == Add(old(kernel), dest, hop) && out == AddOutcome(old(kernel), dest)
    {
      out := AddOutcome(kernel, dest);
      kernel := Add(kernel, dest, hop);
    }

    method RunChange(dest: Option<Prefix>, hop: NextHop) returns (out: Outcome)
      modifies this`kernel
      ensures kernel == Change(old(kernel), dest, hop) && out == ChangeOutcome(old(kernel), dest)
    {
      out := ChangeOutcome(kernel, dest);
      kernel := Change(kernel, dest, hop);
    }

    method AddBypassEndpoint(host: string, ips: seq<Option<string>>)
      modifies this
      ensures State() == Spec.AddBypassEndpoint(old(State()), host, ips)
    {
      if defGw == "" || host == "" {
        return;
      }
      for i := 0 to |ips|
        invariant Spec.BypassAll(State(), ips[i..]) == Spec.BypassAll(old(State()), ips)
      {
        assert ips[i..][1..] == ips[i + 1..];
        if ips[i].None? {
          continue;
        }
        var ip := ips[i].value;
        var out := RunAdd(denote(Spec.Host(ip)), Gateway(defGw));
        if out == Done {
          addedCtrlBypass := addedCtrlBypass + [ip];
        }
      }
    }

    method TryVariant(entry: Spec.SplitRoute, hop: NextHop) returns (ok: bool)
      modifies this
      ensures (State(), ok) == Spec.TryVariant(old(State()), entry, hop)
    {
      var dest := denote(Spec.SplitDest(entry));
      var out := RunAdd(dest, hop);
      if out == Done {
        addedSplits := addedSplits + [entry];
        return true;
      } else if out == Exists {
        var changed := RunChange(dest, hop);
        if changed == Done {
          addedSplits := addedSplits + [entry];
          return true;
        }
      }
      return false;
    }

    method AddVariant(dest: string, mask: string) returns (ok: bool)
      modifies this
      ensures (State(), ok) == Spec.AddVariant(old(State()), dest, mask)
    {
      var cidr := dest + "/1";
      ok := TryVariant(Spec.SplitRoute(dest, mask, false), Device(tunName));
      if ok {
        return;
      }
      ok := TryVariant(Spec.SplitRoute(cidr, "", true), Device(tunName));
      if ok || peerIP == "" {
        return;
      }
      ok := TryVariant(Spec.SplitRoute(dest, mask, false), Via(peerIP, tunName));
      if ok {
        return;
      }
      ok := TryVariant(Spec.SplitRoute(cidr, "", true), Via(peerIP, tunName));
    }

    method AddSplitDefault()
      modifies this
      ensures State() == Spec.AddSplitDefault(old(State()))
    {
      var _ := AddVariant("0.0.0.0", "128.0.0.0");
      var _ := AddVariant("128.0.0.0", "128.0.0.0");
    }

    method AddExclude(dest: string)
      modifies this
      ensures State() == Spec.AddExclude(old(State()), dest)
    {
      var d := TrimSpace(dest);
      if d == "" {
        return;
      }
      var r := Spec.AddedRoute('/' !in d, d);
      var target := denote(Spec.RouteDest(r));
      if defGw != "" {
        var out := RunAdd(target, Gateway(defGw));
        if out == Done {
          addedExcludes := addedExcludes + [r];
          return;
        }
        if out == Exists {
          return;
        }
      }
      var out := RunAdd(target, Reject);
      if out == Done {
        addedExcludes := addedExcludes + [r];
      }
    }

    method AddExtraRoute(dest: string)
      modifies this
      ensures State() == Spec.AddExtraRoute(old(State()), dest)
    {
      var d := TrimSpace(dest);
      if d == "" {
        return;
      }
      var r := Spec.AddedRoute('/' !in d, d);
      var target := denote(Spec.RouteDest(r));
      var out := RunAdd(target, Device(tunName));
      if out == Failed && peerIP != "" {
        out := RunAdd(target, Via(peerIP, tunName));
      }
      if out == Failed {
        return;
      }
      addedExtra := addedExtra + [r];
    }

    method AddDNSServerRoutes(ips: seq<string>, bypass: bool)
      modifies this
      ensures State() == Spec.AddDNSServerRoutes(old(State()), ips, bypass)
    {
      hide TrimSpace, Add, AddOutcome;
      for i := 0 to |ips|
        invariant Spec.AddDNSServerRoutes(State(), ips[i..], bypass)
               == Spec.AddDNSServerRoutes(old(State()), ips, bypass)
      {
        assert ips[i..][1..] == ips[i + 1..];
        var ip := TrimSpace(ips[i]);
        if ip == "" || '/' in ip {
          continue;
        }
        if bypass {
          if defGw == "" {
            continue;
          }
          var out := RunAdd(denote(Spec.Host(ip)), Gateway(defGw));
          if out == Done {
            addedDNSBypass := addedDNSBypass + [ip];
          }
        } else {
          var out := RunAdd(denote(Spec.Host(ip)), Device(tunName));
          if out == Done {
            addedDNSTun := addedDNSTun + [Spec.AddedRoute(true, ip)];
          }
        }
      }
    }

    method DeleteHosts(ledger: seq<string>)
      modifies this`kernel
      ensures kernel == DeleteAll(old(kernel), Spec.Hosts(denote, ledger))
    {
      var dests := Spec.Hosts(denote, ledger);
      for i := 0 to |ledger|
        invariant DeleteAll(kernel, dests[i..]) == DeleteAll(old(kernel), dests)
      {
        assert dests[i..][1..] == dests[i + 1..];
        kernel := Delete(kernel, denote(Spec.Host(ledger[i])));
      }
    }

    method DeleteRoutes(ledger: seq<Spec.AddedRoute>)
      modifies this`kernel
      ensures kernel == DeleteAll(old(kernel), Spec.Routes(denote, ledger))
    {
      var dests := Spec.Routes(denote, ledger);
      for i := 0 to |ledger|
        invariant DeleteAll(kernel, dests[i..]) == DeleteAll(old(kernel), dests)
      {
        assert dests[i..][1..] == dests[i + 1..];
        var ar := ledger[i];
        if ar.isHost {
          kernel := Delete(kernel, denote(Spec.Host(ar.dest)));
        } else {
          kernel := Delete(kernel, denote(Spec.Net(ar.dest)));
        }
      }
    }

    method DeleteSplits(ledger: seq<Spec.SplitRoute>)
      modifies this`kernel
      ensures kernel == DeleteAll(old(kernel), Spec.SplitRoutes(denote, ledger))
    {
      var dests := Spec.SplitRoutes(denote, ledger);
      for i := 0 to |ledger|
        invariant DeleteAll(kernel, dests[i..]) == DeleteAll(old(kernel), dests)
      {
        assert dests[i..][1..] == dests[i + 1..];
        var s := ledger[i];
        if s.usedCIDR {
          kernel := Delete(kernel, denote(Spec.Net(s.dest)));
        } else {
          kernel := Delete(kernel, denote(Spec.Masked(s.dest, s.mask)));
        }
      }
    }

    method RemoveDNSBypass()
      modifies this
      ensures State() == Spec.RemoveDNSBypass(old(State()))
    {
      DeleteHosts(addedDNSBypass);
      addedDNSBypass := [];
    }

    method AddKillSwitchRoute()
      modifies this
      ensures State() == Spec.AddKillSwitchRoute(old(State()))
    {
      killSwitch := true;
      if defGw != "" {
        kernel := Delete(kernel, Some(DEFAULT));
      }
      var out := RunAdd(Some(DEFAULT), Blackhole);
      if out == Done {
        killSwitchAdded := true;
      }
    }

    method DeleteLedgers()
      modifies this`kernel
      ensures kernel == DeleteAll(old(kernel), Spec.Recorded(old(State())))
    {
      DeleteInOrder(kernel, Spec.SplitRoutes(denote, addedSplits), Spec.Routes(denote, addedExcludes),
                    Spec.Hosts(denote, addedCtrlBypass), Spec.Hosts(denote, addedDNSBypass),
                    Spec.Routes(denote, addedExtra), Spec.Routes(denote, addedDNSTun));
      DeleteSplits(addedSplits);
      DeleteRoutes(addedExcludes);
      DeleteHosts(addedCtrlBypass);
      DeleteHosts(addedDNSBypass);
      DeleteRoutes(addedExtra);
      DeleteRoutes(addedDNSTun);
    }

    method Cleanup()
      modifies this
      ensures State() == Spec.Cleanup(old(State()))
    {
      DeleteLedgers();
      kernel := LinkDown(kernel, tunName);
      if killSwitchAdded && !killSwitch {
        kernel := Delete(kernel, Some(DEFAULT));
        if defGw != "" {
          var _ := RunAdd(Some(DEFAULT), Gateway(defGw));
        }
      }
    }
  }

  lemma DeleteInOrder(k: Kernel, a: seq<Option<Prefix>>, b: seq<Option<Prefix>>, c: seq<Option<Prefix>>,
                      d: seq<Option<Prefix>>, e: seq<Option<Prefix>>, f: seq<Option<Prefix>>)
    ensures DeleteAll(k, (a + b + c) + d + (e + f))
         == DeleteAll(DeleteAll(DeleteAll(DeleteAll(DeleteAll(DeleteAll(k, a), b), c), d), e), f)
  {
    DeleteAllConcat(k, a + b + c + d, e + f);
    DeleteAllConcat(k, a + b + c, d);
    DeleteAllConcat(k, a + b, c);
    DeleteAllConcat(k, a, b);
    DeleteAllConcat(DeleteAll(k, a + b + c + d), e, f);
  }
}
