/** Where the helper finds a network namespace, and the two settings the
    helper object keeps: its VRF and its debug flag. */
module Netns {
  import opened Wrappers
  import opened PyStr

  const NetnsDir: string := "/var/run/netns/"
  const ProcDir: string := "/proc/"
  const NsNetSuffix: string := "/ns/net"
  const DefaultVrf: string := "global-vrf"

  /** `get_netns_path(nspath, nsname, nspid)`: a nonempty namespace name
      wins, then a nonzero pid; otherwise `nspath` comes back as given. */
  function GetNetnsPath(nspath: Option<string>, nsname: Option<string>, nspid: Option<int>): (r: Option<string>)
    ensures nsname.Some? && nsname.value != [] ==>
      r.Some? && StartsWith(r.value, NetnsDir) && r.value[|NetnsDir|..] == nsname.value
    ensures (nsname.None? || nsname.value == []) && nspid.Some? && nspid.value != 0 ==>
      r.Some? && StartsWith(r.value, ProcDir) && |r.value| > |ProcDir| + |NsNetSuffix|
      && r.value[|r.value| - |NsNetSuffix|..] == NsNetSuffix
      && r.value[|ProcDir|..|r.value| - |NsNetSuffix|] == Decimal(nspid.value)
    ensures (nsname.None? || nsname.value == []) && (nspid.None? || nspid.value == 0) ==> r == nspath
  {
    if nsname.Some? && nsname.value != [] then
      Some(NetnsDir + nsname.value)
    else if nspid.Some? && nspid.value != 0 then
      var p := ProcDir + Decimal(nspid.value) + NsNetSuffix;
      assert p[|ProcDir|..|p| - |NsNetSuffix|] == Decimal(nspid.value);
      Some(p)
    else
      nspath
  }

  /** The state a `ZtpHelpers` object keeps: the VRF whose namespace
      downloads run in, and the debug flag. Loggers and syslog settings are
      not part of this model. */
  class ZtpHelpers {
    var vrf: string
    var debug: bool

    /** A new helper works in the global VRF with debugging off. */
    constructor ()
      ensures vrf == DefaultVrf && !debug
    {
      vrf := DefaultVrf;
      debug := false;
    }

    /** `set_vrf(vrfname)`: a given name, even an empty one, replaces the
        VRF; no name restores the global VRF. */
    method SetVrf(vrfname: Option<string>)
      modifies this`vrf
      ensures vrf == vrfname.GetOr(DefaultVrf)
    {
      if vrfname.Some? {
        vrf := vrfname.value;
      } else {
        vrf := DefaultVrf;
      }
    }

    /** `toggle_debug(enable)`, as far as the debug flag goes. */
    method ToggleDebug(enable: bool)
      modifies this`debug
      ensures debug == enable
    {
      debug := enable;
    }

    /** The namespace file `download_file` and `setup_syslog` open:
        `get_netns_path(nsname=self.vrf)`. An empty VRF name gives `None`,
        which those calls cannot open. */
    function VrfNamespacePath(): (r: Option<string>)
      reads this
      ensures vrf != [] ==> r == Some(NetnsDir + vrf)
      ensures vrf == [] ==> r.None?
    {
      GetNetnsPath(None, Some(vrf), None)
    }
  }
}
