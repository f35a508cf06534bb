/** The outbound OpenRTB 2.5 bid request the adapter posts to the exchange,
    and the mutable request object it is assembled in. */
module Ortb {
  import opened Js

  /** One banner size, `{w, h}` (section 3.2.10 of OpenRTB 2.5). */
  datatype Format = Format(w: JsValue, h: JsValue)

  /** The banner object of an impression (section 3.2.6 of OpenRTB 2.5). */
  datatype Banner = Banner(format: seq<Format>, id: JsValue)

  /** One impression; `bidfloor` is only present when the slot declares one. */
  datatype Imp = Imp(id: JsValue, banner: Option<Banner>, tagid: JsValue, bidfloor: Option<real>)

  datatype Site = Site(id: JsValue, page: JsValue, domain: JsValue, ref: JsValue)

  datatype Device = Device(ua: JsValue, language: JsValue)

  /** One client-hint entry of the `NetInfo` data block. */
  datatype Segment = Segment(name: string, value: string)

  datatype DataBlock = DataBlock(id: string, name: string, segment: seq<Segment>)

  /** The `user` object: the consent string (key `[ortb_extensions.consent]`)
      and the `data` array, each absent until a step adds it. */
  datatype User = User(consent: Option<JsValue>, data: Option<seq<DataBlock>>)

  /** The `regs` object: the GDPR flag (key `[ortb_extensions.gdpr]`). */
  datatype Regs = Regs(gdpr: Option<int>)

  /** The payload as serialised into the request body. */
  datatype Payload = Payload(
    id: JsValue,
    site: Site,
    imp: seq<Imp>,
    tmax: JsValue,
    device: Device,
    user: User,
    regs: Regs)

  /** The request object while it is being built: `user` and `regs` start
      empty and are patched in place; the other members are never written
      after construction. */
  class OrtbRequest {
    const id: JsValue
    const site: Site
    const imp: seq<Imp>
    const tmax: JsValue
    const device: Device
    var user: User
    var regs: Regs

    constructor (id: JsValue, site: Site, imp: seq<Imp>, tmax: JsValue, device: Device)
      ensures Value() == Payload(id, site, imp, tmax, device, User(None, None), Regs(None))
    {
      this.id := id;
      this.site := site;
      this.imp := imp;
      this.tmax := tmax;
      this.device := device;
      user := User(None, None);
      regs := Regs(None);
    }

    /** The payload as it stands. */
    function Value(): Payload
      reads this
    {
      Payload(id, site, imp, tmax, device, user, regs)
    }
  }
}
