/**
  The part of Go's `net.IP` that the AAAA cache relies on: an IP address is a
  byte slice, and `To4` / `To16` give its 4-byte and 16-byte forms, or nil.
  A 16-byte address in the IPv4-mapped range ::ffff:0:0/96 (section 2.5.5.2 of
  RFC 4291) has an IPv4 form as well as a 4-byte one.
 */
module NetIP {
  import opened Wrappers

  type IP = seq<bv8>

  /** The 12-byte prefix of an IPv4-mapped IPv6 address: ten zero bytes, then 0xff 0xff. */
  const V4InV6Prefix: seq<bv8> := [0, 0, 0, 0, 0, 0, 0, 0, 0, 0, 0xff, 0xff]

  predicate IsZeros(s: seq<bv8>) {
    forall i :: 0 <= i < |s| ==> s[i] == 0
  }

  /** Go's `ip.To4()`: the 4-byte form, or nil when the address is not IPv4. */
  function To4(ip: IP): (r: Option<IP>)
    ensures r.Some? <==> |ip| == 4 || (|ip| == 16 && ip[..12] == V4InV6Prefix)
    ensures r.Some? ==> |r.value| == 4 && r.value == ip[|ip| - 4..]
  {
    if |ip| == 4 then Some(ip)
    else if |ip| == 16 && IsZeros(ip[..10]) && ip[10] == 0xff && ip[11] == 0xff then
      assert ip[..12] == ip[..10] + [ip[10], ip[11]];
      Some(ip[12..16])
    else
      assert |ip| == 16 ==> ip[..12][..10] == ip[..10];
      None
  }

  /** Go's `ip.To16()`: the 16-byte form (an IPv4 address becomes IPv4-mapped), or nil. */
  function To16(ip: IP): (r: Option<IP>)
    ensures r.Some? <==> |ip| == 4 || |ip| == 16
    ensures r.Some? ==> |r.value| == 16 && r.value[12..] == ip[|ip| - 4..]
    ensures |ip| == 4 ==> r == Some(V4InV6Prefix + ip)
    ensures |ip| == 16 ==> r == Some(ip)
  {
    if |ip| == 4 then Some(V4InV6Prefix + ip)
    else if |ip| == 16 then Some(ip)
    else None
  }

  /** The test of dns.go:86: an address with no IPv4 form but with a 16-byte form. */
  predicate IsIPv6Only(ip: IP)
    ensures IsIPv6Only(ip) ==> |ip| == 16
  {
    To4(ip) == None && To16(ip) != None
  }

  /** An address qualifies exactly when it is 16 bytes long and not IPv4-mapped. */
  lemma IPv6OnlyIff(ip: IP)
    ensures IsIPv6Only(ip) <==> |ip| == 16 && ip[..12] != V4InV6Prefix
  {
  }

  /** Widening an IPv4 address to 16 bytes and narrowing it back gives the same address. */
  lemma To4OfTo16(ip: IP)
    requires |ip| == 4
    ensures To16(ip).Some? && To4(To16(ip).value) == Some(ip)
  {
  }

  /** An IPv4 address never qualifies as IPv6-only, neither as it is nor widened to its IPv4-mapped form. */
  lemma IPv4NeverQualifies(ip: IP)
    requires |ip| == 4
    ensures !IsIPv6Only(ip) && !IsIPv6Only(To16(ip).value)
  {
  }
}
