/** Upstream selectors and their text form in cache-key scopes. */
module Selectors {
  import opened Text

  datatype Selector = Selector(id: string, clientType: string, glob: string)

  const CLIENT: string := "client:"
  const GLOB: string := "glob:"

  predicate HasGlobChar(s: string) {
    exists i :: 0 <= i < |s| && (s[i] == '*' || s[i] == '?' || s[i] == '[')
  }

  function ParseSelector(s: string): Selector {
    if HasPrefix(s, CLIENT) then Selector("", s[|CLIENT|..], "")
    else if HasPrefix(s, GLOB) then Selector("", "", s[|GLOB|..])
    else if HasGlobChar(s) then Selector("", "", s)
    else Selector(s, "", "")
  }

  function Show(sel: Selector): string {
    if sel.clientType != "" then CLIENT + sel.clientType
    else if sel.glob != "" then GLOB + sel.glob
    else sel.id
  }

  /** One field at most, and an ID that does not read as anything else. */
  predicate Canonical(sel: Selector) {
    if sel.clientType != "" then sel.id == "" && sel.glob == ""
    else if sel.glob != "" then sel.id == ""
    else !HasPrefix(sel.id, CLIENT) && !HasPrefix(sel.id, GLOB) && !HasGlobChar(sel.id)
  }

  /** Exactly the canonical selectors survive being written and read back. */
  lemma ShowRoundTrips(sel: Selector)
    ensures ParseSelector(Show(sel)) == sel <==> Canonical(sel)
  {
    if sel.clientType != "" {
      assert (CLIENT + sel.clientType)[|CLIENT|..] == sel.clientType;
    } else if sel.glob != "" {
      var s := GLOB + sel.glob;
      assert s[|GLOB|..] == sel.glob && s[0] == 'g';
    }
  }

  /** And reading any text gives one of them, so reading what was written of it changes nothing. */
  lemma ReadTwice(s: string)
    ensures Canonical(ParseSelector(s))
    ensures ParseSelector(Show(ParseSelector(s))) == ParseSelector(s)
  {
    var sel := ParseSelector(s);
    ShowRoundTrips(sel);
  }
}
