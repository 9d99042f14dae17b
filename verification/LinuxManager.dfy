/** linuxRouteManager as the object that the Linux cmdVpn drives. */
module LinuxManager {
  import opened Text
  import opened RouteTable
  import Spec = LinuxRoutes

  class LinuxRouteManager {
    const tunName: string
    const origGw: string
    const origDev: string
    const denote: Spec.Syntax
    var addedBypass: seq<string>
    var addedExclude: seq<string>
    var addedExtra: seq<string>
    var addedDNSTun: seq<string>
    var addedSplits: bool
    var killSwitch: bool
    var killSwitchAdded: bool
    var kernel: Kernel  // the routing table that the commands act on

    ghost function State(): Spec.State
      reads this
    {
      Spec.State(tunName, origGw, origDev, denote,
                        addedBypass, addedExclude, addedExtra, addedDNSTun,
                        addedSplits, killSwitch, killSwitchAdded, kernel)
    }

    constructor (tunName: string, origGw: string, origDev: string, denote: Spec.Syntax, kernel: Kernel)
      ensures State() == Spec.State(tunName, origGw, origDev, denote,
                                           [], [], [], [], false, false, false, kernel)
    {
      this.tunName, this.origGw, this.origDev := tunName, origGw, origDev;
      this.denote, this.kernel := denote, kernel;
      addedBypass, addedExclude, addedExtra, addedDNSTun := [], [], [], [];
      addedSplits, killSwitch, killSwitchAdded := false, false, false;
    }

    method RunAdd(dest: Option<Prefix>, hop: NextHop) returns (ok: bool)
      modifies this`kernel
      ensures kernel == Add(old(kernel), dest, hop)
      ensures ok <==> AddOutcome(old(kernel), dest) == Done
    {
      ok := AddOutcome(kernel, dest) == Done;
      kernel := Add(kernel, dest, hop);
    }

    method AddBypassEndpoint(host: string, ips: seq<Option<string>>)
      modifies this
      ensures State() == Spec.AddBypassEndpoint(old(State()), host, ips)
    {
      if host == "" || origDev == "" {
        return;
      }
      for i := 0 to |ips|
        invariant Spec.BypassAll(State(), ips[i..]) == Spec.BypassAll(old(State()), ips)
      {
        assert ips[i..][1..] == ips[i + 1..];
        if ips[i].None? {
          continue;
        }
        var ip := ips[i].value;
        if origGw != "" {
          var _ := RunAdd(denote(ip), Via(origGw, origDev));
        } else {
          var _ := RunAdd(denote(ip), Device(origDev));
        }
        addedBypass := addedBypass + [ip];
      }
    }

    method AddSplitDefault()
      modifies this
      ensures State() == Spec.AddSplitDefault(old(State()))
    {
      var _ := RunAdd(Some(LOWER_HALF), Device(tunName));
      var _ := RunAdd(Some(UPPER_HALF), Device(tunName));
      addedSplits := true;
    }

    method AddKillSwitchRoute()
      modifies this
      ensures State() == Spec.AddKillSwitchRoute(old(State()))
    {
      killSwitch := true;
      if origGw != "" && origDev != "" {
        kernel := DeleteVia(kernel, DEFAULT, Via(origGw, origDev));
      } else if origDev != "" {
        kernel := DeleteVia(kernel, DEFAULT, Device(origDev));
      } else {
        kernel := Delete(kernel, Some(DEFAULT));
      }
      var ok := RunAdd(Some(DEFAULT), Blackhole);
      if ok {
        killSwitchAdded := true;
      } else if origGw != "" && origDev != "" {
        var _ := RunAdd(Some(DEFAULT), Via(origGw, origDev));
      }
    }

    method AddExclude(dest: string)
      modifies this
      ensures State() == Spec.AddExclude(old(State()), dest)
    {
      var d := TrimSpace(dest);
      if d == "" {
        return;
      }
      if origDev != "" && origGw != "" {
        var _ := RunAdd(denote(d), Via(origGw, origDev));
      } else if origDev != "" {
        var _ := RunAdd(denote(d), Device(origDev));
      } else {
        var _ := RunAdd(denote(d), Reject);
      }
      addedExclude := addedExclude + [d];
    }

    method AddExtraRoute(dest: string)
      modifies this
      ensures State() == Spec.AddExtraRoute(old(State()), dest)
    {
      var d := TrimSpace(dest);
      if d == "" {
        return;
      }
      var _ := RunAdd(denote(d), Device(tunName));
      addedExtra := addedExtra + [d];
    }

    method AddDNSServerRoutes(ips: seq<string>, bypass: bool)
      modifies this
      ensures State() == Spec.AddDNSServerRoutes(old(State()), ips, bypass)
    {
      for i := 0 to |ips|
        invariant Spec.AddDNSServerRoutes(State(), ips[i..], bypass)
               == Spec.AddDNSServerRoutes(old(State()), ips, bypass)
      {
        assert ips[i..][1..] == ips[i + 1..];
        var ip := TrimSpace(ips[i]);
        if ip == "" {
          continue;
        }
        if bypass {
          if origDev == "" {
            continue;
          }
          if origGw != "" {
            var _ := RunAdd(denote(ip), Via(origGw, origDev));
          } else {
            var _ := RunAdd(denote(ip), Device(origDev));
          }
          addedBypass := addedBypass + [ip];
        } else {
          var _ := RunAdd(denote(ip), Device(tunName));
          addedDNSTun := addedDNSTun + [ip];
        }
      }
    }

    method DeleteEach(ledger: seq<string>)
      modifies this`kernel
      ensures kernel == DeleteAll(old(kernel), Spec.Dests(denote, ledger))
    {
      var dests := Spec.Dests(denote, ledger);
      for i := 0 to |ledger|
        invariant DeleteAll(kernel, dests[i..]) == DeleteAll(old(kernel), dests)
      {
        assert dests[i..][1..] == dests[i + 1..];
        kernel := Delete(kernel, denote(ledger[i]));
      }
    }

    method DeleteSplits()
      modifies this`kernel
      ensures kernel == DeleteAll(old(kernel), Spec.Splits(old(State())))
    {
      if addedSplits {
        ghost var m, k := State(), kernel;
        kernel := Delete(kernel, Some(LOWER_HALF));
        ghost var k1 := kernel;
        kernel := Delete(kernel, Some(UPPER_HALF));
        assert Spec.Splits(m)[1..] == [Some(UPPER_HALF)];
        assert DeleteAll(k1, [Some(UPPER_HALF)]) == DeleteAll(kernel, []);
      }
    }

    method DeleteLedgers()
      modifies this`kernel
      ensures kernel == DeleteAll(old(kernel), Spec.Recorded(old(State())))
    {
      DeleteInOrder(kernel, Spec.Splits(State()), Spec.Dests(denote, addedBypass),
                    Spec.Dests(denote, addedExclude), Spec.Dests(denote, addedExtra),
                    Spec.Dests(denote, addedDNSTun));
      DeleteSplits();
      DeleteEach(addedBypass);
      DeleteEach(addedExclude);
      DeleteEach(addedExtra);
      DeleteEach(addedDNSTun);
    }

    method Cleanup()
      modifies this
      ensures State() == Spec.Cleanup(old(State()))
    {
      DeleteLedgers();
      kernel := LinkDown(kernel, tunName);
      if killSwitchAdded && !killSwitch {
        kernel := DeleteVia(kernel, DEFAULT, Blackhole);
        if origGw != "" && origDev != "" {
          var _ := RunAdd(Some(DEFAULT), Via(origGw, origDev));
        }
      }
    }
  }

  lemma DeleteInOrder(k: Kernel, a: seq<Option<Prefix>>, b: seq<Option<Prefix>>, c: seq<Option<Prefix>>,
                      d: seq<Option<Prefix>>, e: seq<Option<Prefix>>)
    ensures DeleteAll(k, a + b + c + d + e)
         == DeleteAll(DeleteAll(DeleteAll(DeleteAll(DeleteAll(k, a), b), c), d), e)
  {
    DeleteAllConcat(k, a + b + c + d, e);
    DeleteAllConcat(k, a + b + c, d);
    DeleteAllConcat(k, a + b, c);
    DeleteAllConcat(k, a, b);
  }
}
