/** Which SOCKS destinations use the VPN: the domain patterns of socks.go, as suffixes of
    dot-separated label lists, and the policy that both the CONNECT and the UDP path apply. */
module DomainPolicy {
  import opened Text

  // ---------- Suffixes of texts and of label lists ----------

  function Labels(name: string): seq<string> { Split(name, '.') }

  lemma SuffixOfConcat(a: seq<string>, b: seq<string>, l: seq<string>)
    requires HasSuffix(b, l)
    ensures HasSuffix(a + b, l)
  {
    assert (a + b)[|a + b| - |l|..] == b[|b| - |l|..];
  }

  lemma LabelsOfSuffix(h: string, p: string)
    requires HasSuffix(h, "." + p)
    ensures HasSuffix(Labels(h), Labels(p))
  {
    var front := h[..|h| - |p| - 1];
    assert h == front + "." + p;
    SplitConcat(front, p, '.');
    SuffixOfConcat(Labels(front), Labels(p), Labels(p));
  }

  lemma SuffixOfLabels(h: string, p: string)
    requires HasSuffix(Labels(h), Labels(p))
    ensures h == p || HasSuffix(h, "." + p)
  {
    var l, n := Labels(h), |Labels(h)| - |Labels(p)|;
    JoinSplit(h, '.');
    JoinSplit(p, '.');
    hide Split, Join;
    if n == 0 {
      assert l == Labels(p);
    } else {
      assert l[n..] == Labels(p);
      JoinConcat(l[..n], l[n..], '.');
      assert l == l[..n] + l[n..];
      DottedEnd(Join(l[..n], '.'), p, h);
    }
  }

  lemma DottedEnd(front: string, p: string, h: string)
    requires h == front + "." + p
    ensures HasSuffix(h, "." + p)
  {
    assert h == front + ("." + p);
  }

  // A name equals a pattern or ends in a dot and the pattern exactly when the pattern's
  // labels are the last labels of the name.
  lemma SuffixIsLabelSuffix(h: string, p: string)
    ensures h == p || HasSuffix(h, "." + p) <==> HasSuffix(Labels(h), Labels(p))
  {
    if h == p {
    } else if HasSuffix(h, "." + p) {
      LabelsOfSuffix(h, p);
    } else if HasSuffix(Labels(h), Labels(p)) {
      SuffixOfLabels(h, p);
    }
  }

  // ---------- Matching ----------

  function HostForm(host: string): string { Lower(TrimSuffix(host, ".")) }

  // The trailing dot is looked for before the white space is trimmed.
  function PatternForm(p: string): string { Lower(TrimSpace(TrimSuffix(p, "."))) }

  // The labels of a non-empty pattern are the last labels of the name.
  predicate Covers(p: string, h: string) { p != "" && HasSuffix(Labels(h), Labels(p)) }

  predicate Matches(host: string, patterns: seq<string>) {
    exists p | p in patterns :: Covers(PatternForm(p), HostForm(host))
  }

  method DomainMatches(host: string, patterns: seq<string>) returns (found: bool)
    ensures found <==> Matches(host, patterns)
  {
    hide Covers;
    var h := HostForm(host);
    for i := 0 to |patterns|
      invariant forall j | 0 <= j < i :: !Covers(PatternForm(patterns[j]), h)
    {
      var matched := MatchesPattern(h, patterns[i]);
      if matched {
        return true;
      }
    }
    return false;
  }

  // The body of the loop over the patterns.
  method MatchesPattern(h: string, pattern: string) returns (found: bool)
    ensures found <==> Covers(PatternForm(pattern), h)
  {
    var p := Lower(TrimSpace(TrimSuffix(pattern, ".")));
    if p == "" {
      return false;
    }
    SuffixIsLabelSuffix(h, p);
    return h == p || HasSuffix(h, "." + p);
  }

  // Letter case, and one trailing dot of a host that does not itself end in two dots, are
  // immaterial.
  lemma HostFormNormalises(host: string)
    ensures HostForm(Lower(host)) == HostForm(host)
    ensures !HasSuffix(host, ".") ==> HostForm(host + ".") == HostForm(host)
  {
    var l := Lower(host);
    assert forall c: char :: LowerChar(LowerChar(c)) == LowerChar(c);
    assert HasSuffix(l, ".") <==> HasSuffix(host, ".") by {
      if |host| > 0 {
        assert l[|l| - 1..] == [l[|l| - 1]] && host[|host| - 1..] == [host[|host| - 1]];
      }
    }
    assert HostForm(l) == HostForm(host) by {
      var t, u := TrimSuffix(l, "."), TrimSuffix(host, ".");
      assert |t| == |u| && forall i :: 0 <= i < |t| ==> t[i] == LowerChar(u[i]);
    }
    assert (host + ".")[|host|..] == "." && (host + ".")[..|host|] == host;
  }

  // ---------- What patterns mean ----------

  // The pattern without white space around it, letter case and one trailing dot.
  function Meant(p: string): string { Lower(TrimSpace(TrimSuffix(TrimSpace(p), "."))) }

  // A pattern that ends in a dot once it is trimmed ends in it as it stands.
  predicate Tight(p: string) { HasSuffix(TrimSpace(p), ".") ==> HasSuffix(p, ".") }

  lemma EndsInDot(p: string)
    requires HasSuffix(p, ".")
    ensures var q := TrimSuffix(p, ".");
      && p == q + "." && TrimSpace(p) == TrimLeft(q) + "."
      && TrimSuffix(TrimSpace(p), ".") == TrimLeft(q)
      && TrimSpace(TrimLeft(q)) == TrimSpace(q)
  {
    var q := TrimSuffix(p, ".");
    assert p == q + ".";
    TrimAppend(q, '.');
  }

  // The code normalises a pattern to what it means exactly when the pattern is tight.
  lemma PatternFormIsMeantIff(p: string)
    ensures PatternForm(p) == Meant(p) <==> Tight(p)
    ensures !Tight(p) ==> |Meant(p)| < |PatternForm(p)|
  {
    var core := TrimSpace(p);
    TrimSpaceTrims(p);
    TrimSpaceTrims(core);
    if HasSuffix(p, ".") {
      EndsInDot(p);
      assert HasSuffix(core, ".");
    } else if HasSuffix(core, ".") {
      assert PatternForm(p) == Lower(core);
      TrimShortens(TrimSuffix(core, "."));
    }
  }

  lemma TrimShortens(s: string)
    ensures |TrimSpace(s)| <= |s|
  {
  }

  lemma LowerTwice(s: string)
    ensures Lower(Lower(s)) == Lower(s)
  {
    assert forall c: char :: LowerChar(LowerChar(c)) == LowerChar(c);
  }

  // A host that is spelled like a pattern's normal form, with a dot at the end.
  lemma DottedHost(s: string)
    ensures HostForm(Lower(s) + ".") == Lower(s)
  {
    LowerTwice(s);
    assert (Lower(s) + ".")[|s|..] == "." && (Lower(s) + ".")[..|s|] == Lower(s);
  }

  lemma NoEmptyFormCovers(p: string)
    requires PatternForm(p) != ""
    ensures var host := PatternForm(p) + "."; Covers(PatternForm(p), HostForm(host)) && !Covers("", HostForm(host))
  {
    DottedHost(TrimSpace(TrimSuffix(p, ".")));
    assert HostForm(PatternForm(p) + ".") == PatternForm(p);
    hide PatternForm, HostForm, Labels;
    SuffixIsLabelSuffix(PatternForm(p), PatternForm(p));
  }

  lemma LongerFormMisses(p: string)
    requires Meant(p) != "" && |Meant(p)| < |PatternForm(p)|
    ensures var host := Meant(p) + "."; Covers(Meant(p), HostForm(host)) && !Covers(PatternForm(p), HostForm(host))
  {
    DottedHost(TrimSpace(TrimSuffix(TrimSpace(p), ".")));
    assert HostForm(Meant(p) + ".") == Meant(p);
    hide PatternForm, HostForm, Labels;
    SuffixIsLabelSuffix(Meant(p), Meant(p));
    SuffixIsLabelSuffix(Meant(p), PatternForm(p));
  }

  // A pattern covers the hosts that it is meant to cover, and no others, exactly when it is
  // tight.
  lemma CoversAsMeantIff(p: string)
    ensures (forall host :: Covers(PatternForm(p), HostForm(host)) <==> Covers(Meant(p), HostForm(host))) <==> Tight(p)
  {
    PatternFormIsMeantIff(p);
    hide PatternForm, Meant, HostForm, Covers;
    if !Tight(p) {
      if Meant(p) == "" {
        NoEmptyFormCovers(p);
      } else {
        LongerFormMisses(p);
      }
    }
  }

  // So a list of tight patterns matches a host exactly when the labels that some non-empty
  // pattern means are the last labels of the host.
  lemma MatchesAsMeant(host: string, patterns: seq<string>)
    requires forall p :: p in patterns ==> Tight(p)
    ensures Matches(host, patterns) <==> exists p | p in patterns :: Covers(Meant(p), HostForm(host))
  {
    forall p | p in patterns ensures PatternForm(p) == Meant(p) {
      PatternFormIsMeantIff(p);
    }
  }

  // Letter case and leading white space never matter, trailing white space only after a dot.
  lemma PatternFormNormalises(p: string)
    ensures PatternForm(Lower(p)) == PatternForm(p)
    ensures PatternForm(TrimLeft(p)) == PatternForm(p)
    ensures Tight(p) ==> PatternForm(TrimSpace(p)) == PatternForm(p)
  {
    FoldedForm(p);
    SkipsLeadingSpace(p);
    if Tight(p) {
      PatternFormIsMeantIff(p);
      PatternFormIsMeantIff(TrimSpace(p));
      TrimSpaceTrims(p);
      TrimSpaceTrims(TrimSpace(p));
    }
  }

  lemma SkipsLeadingSpace(p: string)
    ensures PatternForm(TrimLeft(p)) == PatternForm(p)
  {
    if HasSuffix(p, ".") {
      EndsInDot(p);
      var q := TrimSuffix(p, ".");
      TrimAppend(q, '.');
      StartAppend(q, '.', 0);
      assert TrimLeft(p) == TrimLeft(q) + ".";
      assert TrimSuffix(TrimLeft(p), ".") == TrimLeft(q);
    } else {
      TrimAppend(p, '.');
      assert !HasSuffix(TrimLeft(p), ".");
    }
  }

  lemma {:induction false} LowerStart(s: string, i: nat)
    requires i <= |s|
    ensures Start(Lower(s), i) == Start(s, i)
    decreases |s| - i
  {
    if i < |s| && IsSpace(s[i]) {
      LowerStart(s, i + 1);
    }
  }

  lemma {:induction false} LowerEnd(s: string, n: nat)
    requires n <= |s|
    ensures End(Lower(s), n) == End(s, n)
  {
    if n > 0 && IsSpace(s[n - 1]) {
      LowerEnd(s, n - 1);
    }
  }

  lemma LowerSlice(s: string, i: nat, j: nat)
    requires i <= j <= |s|
    ensures Lower(s)[i..j] == Lower(s[i..j])
  {
  }

  lemma LowerTrims(s: string)
    ensures TrimSpace(Lower(s)) == Lower(TrimSpace(s))
  {
    hide Start, End, Lower;
    var l, t := Lower(s), TrimLeft(s);
    LowerStart(s, 0);
    LowerSlice(s, Start(s, 0), |s|);
    assert TrimLeft(l) == l[Start(l, 0)..|l|] && t == s[Start(s, 0)..|s|];
    LowerEnd(t, |t|);
    LowerSlice(t, 0, End(t, |t|));
    assert TrimRight(t) == t[0..End(t, |t|)] && TrimRight(Lower(t)) == Lower(t)[0..End(Lower(t), |t|)];
  }

  lemma FoldedForm(p: string)
    ensures PatternForm(Lower(p)) == PatternForm(p)
  {
    var l := Lower(p);
    assert HasSuffix(l, ".") <==> HasSuffix(p, ".") by {
      if |p| > 0 {
        assert l[|l| - 1..] == [l[|l| - 1]] && p[|p| - 1..] == [p[|p| - 1]];
      }
    }
    assert TrimSuffix(l, ".") == Lower(TrimSuffix(p, "."));
    LowerTrims(TrimSuffix(p, "."));
    LowerTwice(TrimSpace(TrimSuffix(p, ".")));
  }

  // ---------- The policy ----------

  // An empty request domain stands for a destination given as an address.
  predicate UsesVpn(domain: string, allow: seq<string>, exclude: seq<string>) {
    && (allow == [] || (domain != "" && Matches(domain, allow)))
    && !(domain != "" && Matches(domain, exclude))
  }

  // The decision as both paths of the proxy take it.
  method Decide(domain: string, allow: seq<string>, exclude: seq<string>) returns (useVPN: bool)
    ensures useVPN <==> UsesVpn(domain, allow, exclude)
  {
    useVPN := true;
    if |allow| > 0 {
      var allowed := false;
      if domain != "" {
        allowed := DomainMatches(domain, allow);
      }
      if domain == "" || !allowed {
        useVPN := false;
      }
    }
    if domain != "" {
      var excluded := DomainMatches(domain, exclude);
      if excluded {
        useVPN := false;
      }
    }
  }

  // Subdomains inherit an exclusion, whatever the allow list says.
  lemma ExclusionCoversSubdomains(sub: string, domain: string, allow: seq<string>, exclude: seq<string>)
    requires sub != "" && domain != "" && Matches(domain, exclude)
    ensures !UsesVpn(sub + "." + domain, allow, exclude)
  {
    var p :| p in exclude && Covers(PatternForm(p), HostForm(domain));
    var name := sub + "." + domain;
    HostOfSubdomain(sub, domain);
    SplitConcat(Lower(sub), HostForm(domain), '.');
    SuffixOfConcat(Labels(Lower(sub)), Labels(HostForm(domain)), Labels(PatternForm(p)));
    assert Covers(PatternForm(p), HostForm(name));
  }

  lemma HostOfSubdomain(sub: string, domain: string)
    requires domain != ""
    ensures HostForm(sub + "." + domain) == Lower(sub) + "." + HostForm(domain)
  {
    var name, t := sub + "." + domain, TrimSuffix(domain, ".");
    assert name[|name| - 1..] == domain[|domain| - 1..];
    assert TrimSuffix(name, ".") == sub + "." + t;
    assert Lower(sub + "." + t) == Lower(sub) + "." + Lower(t);
  }

  // An exclusion with a space after its trailing dot excludes nothing of what it names,
  // although the dot alone or the space alone does no harm.
  lemma SpaceAfterDotExcludesNothing()
    ensures UsesVpn("a", [], ["a. "])
    ensures !UsesVpn("a", [], ["a."]) && !UsesVpn("a", [], ["a "]) && !UsesVpn("a", [], ["a"])
  {
    Forms();
    SuffixIsLabelSuffix("a", "a.");
    SuffixIsLabelSuffix("a", "a");
    hide PatternForm, HostForm, Labels;
    assert !Matches("a", ["a. "]);
    assert "a." in ["a."] && "a " in ["a "] && "a" in ["a"];
  }

  lemma Forms()
    ensures HostForm("a") == "a"
    ensures PatternForm("a. ") == "a." && PatternForm("a.") == "a" && PatternForm("a ") == "a" && PatternForm("a") == "a"
  {
    hide TrimSpace;
    Undotted();
    TrimmedLetters();
    assert Lower("a") == "a" && Lower("a.") == "a.";
  }

  lemma Undotted()
    ensures TrimSuffix("a", ".") == "a" && TrimSuffix("a.", ".") == "a"
    ensures TrimSuffix("a. ", ".") == "a. " && TrimSuffix("a ", ".") == "a "
  {
    assert "a. "[2..] == " " && "a "[1..] == " ";
  }

  lemma TrimmedLetters()
    ensures TrimSpace("a. ") == "a." && TrimSpace("a ") == "a" && TrimSpace("a") == "a"
  {
    TrimOneSpace("a.", ' ');
    TrimOneSpace("a", ' ');
    TrimSpaceTrims("a");
    hide TrimSpace;
    assert "a." + " " == "a. " && "a" + " " == "a ";
  }

  // ---------- The policy, case by case ----------

  // For tight patterns: an address never passes a list of allowed names, a name passes it
  // exactly when its last labels are those of one, and an excluded name never uses the VPN.
  lemma PolicyMeans(domain: string, allow: seq<string>, exclude: seq<string>)
    requires forall p :: p in allow + exclude ==> Tight(p)
    ensures var h := HostForm(domain);
      UsesVpn(domain, allow, exclude) <==>
        if domain == "" then |allow| == 0
        else
          && (|allow| == 0 || exists p :: p in allow && Covers(Meant(p), h))
          && forall p :: p in exclude ==> !Covers(Meant(p), h)
  {
    MatchesAsMeant(domain, allow);
    MatchesAsMeant(domain, exclude);
    hide Matches, Covers, Meant, HostForm, Tight;
  }

  // An address and a name, under lists that name it and lists that do not.
  lemma PolicyExamples()
    ensures !UsesVpn("", ["a"], []) && UsesVpn("", [], ["a"])
    ensures UsesVpn("a", ["a"], []) && !UsesVpn("a", ["b"], [])
  {
    Forms();
    FormOfB();
    hide PatternForm, HostForm, Labels;
    SuffixIsLabelSuffix("a", "a");
    SuffixIsLabelSuffix("a", "b");
    assert Covers("a", "a") && !Covers("b", "a");
    hide Covers;
    assert "a" in ["a"] && Matches("a", ["a"]);
    assert !Matches("a", ["b"]);
  }

  lemma FormOfB()
    ensures PatternForm("b") == "b"
  {
    assert TrimSuffix("b", ".") == "b";
    TrimSpaceTrims("b");
    hide TrimSpace, TrimSuffix;
    assert Lower("b") == "b";
  }
}
