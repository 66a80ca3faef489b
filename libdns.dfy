/**
 * The DNS record types of the generic DNS-provider interface the adapter sits on.
 *
 * A record is either one of the concrete kinds the Bluecat client understands
 * (TXT, address, CNAME, MX, NS, SRV), each carrying an optional provider-assigned
 * correlation token, or a generic resource record that only has a name, a type
 * string, a TTL and a presentation-format data string, and no provider data.
 */
module Libdns {
  import opened Wrappers

  /** A 16-bit unsigned field (MX preference, SRV priority, weight and port). */
  newtype uint16 = x: int | 0 <= x < 0x1_0000

  /** A generic resource record: name, type, TTL and data in presentation format. */
  datatype RR = RR(name: string, rtype: string, ttl: int, data: string)

  /** A parsed IP address; the parser itself is not part of this model. */
  datatype Addr = IPv4(octets: seq<bv8>) | IPv6(octets: seq<bv8>, zone: string)

  /** The provider's opaque correlation token (the Bluecat object it stands for). */
  type ProviderData = string

  datatype Record =
    | TXT(name: string, ttl: int, text: string, providerData: Option<ProviderData>)
    | Address(name: string, ttl: int, ip: Addr, providerData: Option<ProviderData>)
    | CNAME(name: string, ttl: int, target: string, providerData: Option<ProviderData>)
    | MX(name: string, ttl: int, preference: uint16, target: string, providerData: Option<ProviderData>)
    | NS(name: string, ttl: int, target: string, providerData: Option<ProviderData>)
    | SRV(service: string, transport: string, name: string, ttl: int,
          priority: uint16, weight: uint16, port: uint16, target: string,
          providerData: Option<ProviderData>)
    | Generic(rr: RR)
  {
    /** The record kinds the Bluecat client dispatches on by their type. */
    predicate IsConcrete() { !Generic? }
  }

  /**
   * The generic view of the record kinds whose data field is a single name or
   * string: TXT, CNAME, NS and generic records. Address, MX and SRV records
   * format their data from several fields and are not given a view here.
   */
  function PlainRR(rec: Record): Option<RR>
  {
    match rec
    case TXT(name, ttl, text, _) => Some(RR(name, "TXT", ttl, text))
    case CNAME(name, ttl, target, _) => Some(RR(name, "CNAME", ttl, target))
    case NS(name, ttl, target, _) => Some(RR(name, "NS", ttl, target))
    case Generic(rr) => Some(rr)
    case _ => None
  }
}
