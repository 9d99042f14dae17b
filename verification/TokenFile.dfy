/** The token file of jwt.go, which quick-connect and its renewer share. A write that fails
    may leave a part of its text behind, since the file is truncated first. */
module TokenFile {
  import opened Text

  // ---------- Loading and saving, as functions of the file's content ----------

  function Load(maybe: string, content: Option<string>): Option<string> {
    if TrimSpace(maybe) != "" then Some(TrimSpace(maybe))
    else match content
      case Some(text) => Some(TrimSpace(text))
      case None => None
  }

  function Saved(jwt: string): string { TrimSpace(jwt) + "\n" }

  // The directory or the file cannot be opened; or the text is written in part; or all of it is.
  datatype WriteResult = Refused | Torn(n: nat) | Done

  // The part of the text that a torn write leaves.
  function Cut(jwt: string, n: nat): string { if n <= |Saved(jwt)| then Saved(jwt)[..n] else Saved(jwt) }

  function After(content: Option<string>, jwt: string, result: WriteResult): Option<string> {
    match result
    case Refused => content
    case Torn(n) => Some(Cut(jwt, n))
    case Done => Some(Saved(jwt))
  }

  // What was saved is what is loaded, up to surrounding white space.
  lemma LoadAfterSave(jwt: string)
    ensures Load("", Some(Saved(jwt))) == Some(TrimSpace(jwt))
  {
    TrimSpaceTrims(jwt);
    TrimSpaceTrims("");
    TrimOneSpace(TrimSpace(jwt), '\n');
  }

  ghost predicate ProperPrefix(s: string, t: string) { |s| < |t| && s == t[..|s|] }

  // What a torn write leaves loads as the token exactly when no letter of it is missing,
  // and otherwise as a proper prefix of it.
  lemma CutLoads(jwt: string, n: nat)
    ensures n >= |TrimSpace(jwt)| ==> TrimSpace(Cut(jwt, n)) == TrimSpace(jwt)
    ensures n < |TrimSpace(jwt)| ==> ProperPrefix(TrimSpace(Cut(jwt, n)), TrimSpace(jwt))
  {
    var t := TrimSpace(jwt);
    TrimSpaceTrims(jwt);
    hide TrimSpace;
    if n >= |t| {
      TrimOneSpace(t, '\n');
      TrimSpaceTrims(t);
      assert Cut(jwt, n) == t || Cut(jwt, n) == t + "\n";
    } else {
      assert Cut(jwt, n) == t[..n];
      TrimFront(t, n);
    }
  }

  // Trimming a front part of a trimmed text removes letters at its end only.
  lemma TrimFront(t: string, n: nat)
    requires Trimmed(t) && n < |t|
    ensures ProperPrefix(TrimSpace(t[..n]), t)
  {
    var s := t[..n];
    if n > 0 {
      assert s[0] == t[0];
      assert Start(s, 0) == 0 && s[0..] == s;
    } else {
      TrimSpaceTrims(s);
    }
  }

  class TokenFile {
    var content: Option<string>  // None when the file cannot be read

    constructor (content: Option<string>)
      ensures this.content == content
    {
      this.content := content;
    }

    method LoadJwt(maybe: string) returns (jwt: Option<string>)
      ensures jwt == Load(maybe, content)
    {
      var given := TrimSpace(maybe);
      if given != "" {
        return Some(given);
      }
      if content.None? {
        return None;
      }
      return Some(TrimSpace(content.value));
    }

    method SaveJwt(jwt: string, result: WriteResult) returns (ok: bool)
      modifies this
      ensures ok <==> result == Done
      ensures content == After(old(content), jwt, result)
      ensures ok ==> Load("", content) == Some(TrimSpace(jwt))
    {
      LoadAfterSave(jwt);
      var text := TrimSpace(jwt) + "\n";
      match result
      case Refused =>
        return false;
      case Torn(n) =>
        content := Some(if n <= |text| then text[..n] else text);
        return false;
      case Done =>
        content := Some(text);
        return true;
    }
  }
}
