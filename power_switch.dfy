/**
 * URL selection of the power controller (`switch`): the smart switch (a Shelly
 * relay) is driven by one HTTP GET whose path says on or off. The request
 * itself is not modelled; the boot loop records each call as a power event
 * carrying the URL built here.
 */
module PowerSwitch {
  import opened Wrappers

  const Scheme: string := "http://"
  const SwitchOnPath: string := "/rpc/Switch.Set?id=0&on=true"
  const SwitchOffPath: string := "/rpc/Switch.Set?id=0&on=false"

  /** The URL `switch(ipAddr, switchState)` requests: on only for exactly "on", off for anything else. */
  function SwitchUrl(ipAddr: string, switchState: string): (url: string)
    ensures |Scheme| + |ipAddr| <= |url| && url[..|Scheme|] == Scheme && url[|Scheme|..|Scheme| + |ipAddr|] == ipAddr
    ensures switchState == "on" ==> EndsWith(url, SwitchOnPath)
    ensures switchState != "on" ==> EndsWith(url, SwitchOffPath)
  {
    if switchState == "on" then Scheme + ipAddr + SwitchOnPath
    else Scheme + ipAddr + SwitchOffPath
  }

  /** `s` ends with `suffix`. */
  predicate EndsWith(s: string, suffix: string) {
    |suffix| <= |s| && s[|s| - |suffix|..] == suffix
  }

  /**
   * Reads a switch URL back: the switch address it targets and whether it
   * asks for power on. None for a URL of any other shape.
   */
  function ReadSwitchUrl(url: string): (r: Option<(string, bool)>)
    ensures r.Some? ==> |Scheme| <= |url| && url[..|Scheme|] == Scheme
    ensures r.Some? && r.value.1 ==> EndsWith(url, SwitchOnPath)
    ensures r.Some? && !r.value.1 ==> EndsWith(url, SwitchOffPath)
  {
    if |url| < |Scheme| || url[..|Scheme|] != Scheme then None
    else if |Scheme| + |SwitchOnPath| <= |url| && EndsWith(url, SwitchOnPath) then
      Some((url[|Scheme|..|url| - |SwitchOnPath|], true))
    else if |Scheme| + |SwitchOffPath| <= |url| && EndsWith(url, SwitchOffPath) then
      Some((url[|Scheme|..|url| - |SwitchOffPath|], false))
    else None
  }

  /** The last `k` characters of `a + b` are those of `b`. */
  lemma SuffixOfConcat(a: string, b: string, k: nat)
    requires k <= |b|
    ensures (a + b)[|a + b| - k..] == b[|b| - k..]
  {
  }

  /** The URL names the switch's address and the requested state, and nothing else. */
  lemma {:induction false} SwitchUrlRoundTrip(ipAddr: string, switchState: string)
    ensures ReadSwitchUrl(SwitchUrl(ipAddr, switchState)) == Some((ipAddr, switchState == "on"))
  {
    var url := SwitchUrl(ipAddr, switchState);
    assert url[..|Scheme|] == Scheme;
    if switchState == "on" {
      assert url == (Scheme + ipAddr) + SwitchOnPath;
      SuffixOfConcat(Scheme + ipAddr, SwitchOnPath, |SwitchOnPath|);
      assert url[|Scheme|..|url| - |SwitchOnPath|] == ipAddr;
    } else {
      assert url == (Scheme + ipAddr) + SwitchOffPath;
      SuffixOfConcat(Scheme + ipAddr, SwitchOffPath, |SwitchOnPath|);
      assert url[|url| - |SwitchOnPath|..] == SwitchOffPath[1..];
      assert SwitchOffPath[1] != SwitchOnPath[0];
      assert !EndsWith(url, SwitchOnPath);
      SuffixOfConcat(Scheme + ipAddr, SwitchOffPath, |SwitchOffPath|);
      assert url[|Scheme|..|url| - |SwitchOffPath|] == ipAddr;
    }
  }

  /** The URL asks for power on exactly when the state is "on", and for power off exactly otherwise. */
  lemma OnOnlyForOn(ipAddr: string, switchState: string)
    ensures EndsWith(SwitchUrl(ipAddr, switchState), SwitchOnPath) <==> switchState == "on"
    ensures EndsWith(SwitchUrl(ipAddr, switchState), SwitchOffPath) <==> switchState != "on"
  {
    var url := SwitchUrl(ipAddr, switchState);
    SwitchUrlRoundTrip(ipAddr, switchState);
    if switchState == "on" {
      SuffixOfConcat(Scheme + ipAddr, SwitchOnPath, 2);
      assert url[|url| - 2..] == "ue";
      assert |SwitchOffPath| <= |url| ==> url[|url| - |SwitchOffPath|..][|SwitchOffPath| - 2..] == url[|url| - 2..];
      assert SwitchOffPath[|SwitchOffPath| - 2..] == "se";
    }
  }

  /** Any state other than "on" switches off, exactly as "off" does. */
  lemma DefaultsToOff(ipAddr: string, switchState: string)
    requires switchState != "on"
    ensures ReadSwitchUrl(SwitchUrl(ipAddr, switchState)) == Some((ipAddr, false))
  {
    SwitchUrlRoundTrip(ipAddr, switchState);
  }

  /** Two calls request the same URL only for the same switch and the same on/off choice. */
  lemma SwitchUrlInjective(ip1: string, state1: string, ip2: string, state2: string)
    requires SwitchUrl(ip1, state1) == SwitchUrl(ip2, state2)
    ensures ip1 == ip2 && (state1 == "on" <==> state2 == "on")
  {
    SwitchUrlRoundTrip(ip1, state1);
    SwitchUrlRoundTrip(ip2, state2);
  }
}
