/** The proxyDHCP decision: which reply, if any, a DHCP request gets. */
module Offer {
  import opened FleetTypes
  import opened Tracker
  import FleetFile
  import Paths
  import Text

  /** Option 93. The names follow the IANA registry of section 2.1 of RFC 4578. */
  datatype Arch = X86Pc | EfiIa32 | EfiX64 | EfiArm64 | EfiX64Http | EfiArm64Http | OtherArch(code: nat)

  datatype Transport = Tftp | Http

  datatype ArchProfile = ArchProfile(transport: Transport, bootFile: string)

  /** archTable, with the x86-64 TFTP row for codes it does not hold. */
  function LookupArch(a: Arch): (ArchProfile, bool) {
    match a
    case X86Pc => (ArchProfile(Tftp, "undionly.kpxe"), true)
    case EfiX64 => (ArchProfile(Tftp, "snponly.efi"), true)
    case EfiArm64 => (ArchProfile(Tftp, "ipxe-arm64.efi"), true)
    case EfiX64Http => (ArchProfile(Http, "snponly.efi"), true)
    case EfiArm64Http => (ArchProfile(Http, "ipxe-arm64.efi"), true)
    case EfiIa32 => (ArchProfile(Tftp, "snponly.efi"), true)
    case OtherArch(_) => (ArchProfile(Tftp, "snponly.efi"), false)
  }

  function SelectArch(archs: seq<Arch>): Arch {
    if archs == [] then X86Pc else archs[0]
  }

  datatype MessageType = Discover | RequestMessage | OfferMessage | Ack | OtherMessage

  /** The parts of a DHCPv4 request the decision reads; mac is the hardware address as text. */
  datatype Request = Request(mac: string, kind: MessageType, vendorClass: string, userClasses: seq<string>, archs: seq<Arch>)

  datatype Maybe<T> = Absent | Present(value: T)

  /** fleet, pending and lastEvent may each be left unset. */
  datatype Config = Config(
    ip: Maybe<string>, port: int, scriptPath: string, ipxeClass: string,
    fleet: Maybe<Store>, pending: Maybe<string -> bool>, lastEvent: Maybe<string -> Stage>)

  datatype Phase = FirmwareTftp | FirmwareHttp | IpxeScript

  datatype Skip = NotPxe | UnsupportedMessage | NoPendingAction | AlreadyDeployed

  datatype Reply = Reply(kind: MessageType, phase: Phase, bootFile: string, vendorClass: string, nextServer: string)

  /** noted is the arch reported to the discovery feed, if the machine was. */
  datatype Decision =
    | Sent(reply: Reply, noted: Maybe<Arch>)
    | Skipped(why: Skip)
    | BadConfig

  predicate IsPxe(vendorClass: string) {
    Paths.HasPrefix(vendorClass, "PXEClient") || Paths.HasPrefix(vendorClass, "HTTPClient")
  }

  function IpxeClass(cfg: Config): string {
    if cfg.ipxeClass == "" then "iPXE" else cfg.ipxeClass
  }

  predicate IsIpxe(req: Request, cfg: Config) {
    IpxeClass(cfg) in req.userClasses
  }

  /** A machine counts as known when its profile carries a name. */
  predicate Known(req: Request, cfg: Config) {
    cfg.fleet.Present? && FleetFile.Lookup(cfg.fleet.value, req.mac).name != ""
  }

  predicate HasPending(req: Request, cfg: Config) {
    cfg.pending.Present? && cfg.pending.value(req.mac)
  }

  predicate Deployed(req: Request, cfg: Config) {
    cfg.lastEvent.Present? && cfg.lastEvent.value(req.mac) == At(InstallerDone)
  }

  /** The two firmware-stage gates. */
  predicate Gated(req: Request, cfg: Config) {
    Known(req, cfg) && !HasPending(req, cfg) && (Deployed(req, cfg) || cfg.pending.Present?)
  }

  predicate ConfigOk(cfg: Config) {
    cfg.ip.Present? && 0 < cfg.port <= 65535
  }

  function Url(cfg: Config, path: string): string
    requires ConfigOk(cfg)
  {
    "http://" + cfg.ip.value + ":" + Text.Decimal(cfg.port) + path
  }

  function ReplyKind(req: Request): MessageType {
    if req.kind == RequestMessage then Ack else OfferMessage
  }

  function FirmwareReply(req: Request, cfg: Config): Reply
    requires ConfigOk(cfg)
  {
    var profile := LookupArch(SelectArch(req.archs)).0;
    if profile.transport == Tftp
    then Reply(ReplyKind(req), FirmwareTftp, profile.bootFile, "PXEClient", cfg.ip.value)
    else Reply(ReplyKind(req), FirmwareHttp, Url(cfg, "/" + profile.bootFile), "HTTPClient", cfg.ip.value)
  }

  function Decide(req: Request, cfg: Config): Decision
  {
    if !ConfigOk(cfg) then BadConfig
    else if req.kind != Discover && req.kind != RequestMessage then Skipped(UnsupportedMessage)
    else if !IsPxe(req.vendorClass) then Skipped(NotPxe)
    else if IsIpxe(req, cfg) then
      Sent(Reply(ReplyKind(req), IpxeScript, Url(cfg, cfg.scriptPath), "PXEClient", cfg.ip.value), Absent)
    else if Gated(req, cfg) then Skipped(if Deployed(req, cfg) then AlreadyDeployed else NoPendingAction)
    else Sent(FirmwareReply(req, cfg), if Known(req, cfg) then Absent else Present(SelectArch(req.archs)))
  }

  method UserClassContains(classes: seq<string>, want: string) returns (found: bool)
    ensures found <==> want in classes
  {
    for i := 0 to |classes|
      invariant want !in classes[..i]
    {
      if classes[i] == want { return true; }
    }
    return false;
  }

  /** BuildOffer, filling in the reply field by field. */
  method BuildOffer(req: Request, cfg: Config) returns (d: Decision)
    ensures d == Decide(req, cfg)
  {
    hide FleetFile.Lookup, Text.Decimal;
    if cfg.ip.Absent? || cfg.port <= 0 || cfg.port > 65535 { return BadConfig; }
    var machineKnown := false;
    if cfg.fleet.Present? {
      var p := FleetFile.Lookup(cfg.fleet.value, req.mac);
      machineKnown := p.name != "";
    }
    if req.kind != Discover && req.kind != RequestMessage { return Skipped(UnsupportedMessage); }
    if !IsPxe(req.vendorClass) { return Skipped(NotPxe); }
    var isIpxe := UserClassContains(req.userClasses, IpxeClass(cfg));
    var reply := Reply(OfferMessage, FirmwareTftp, "", "PXEClient", "");
    if req.kind == RequestMessage { reply := reply.(kind := Ack); }
    if isIpxe {
      reply := reply.(phase := IpxeScript, bootFile := Url(cfg, cfg.scriptPath), nextServer := cfg.ip.value);
      return Sent(reply, Absent);
    }
    if machineKnown {
      var hasPending := cfg.pending.Present? && cfg.pending.value(req.mac);
      if !hasPending {
        if cfg.lastEvent.Present? && cfg.lastEvent.value(req.mac) == At(InstallerDone) { return Skipped(AlreadyDeployed); }
        if cfg.pending.Present? { return Skipped(NoPendingAction); }
      }
    }
    var archs := req.archs;
    if |archs| == 0 { archs := [X86Pc]; }
    var arch := SelectArch(archs);
    var profile := LookupArch(arch).0;
    var noted := Absent;
    if !machineKnown { noted := Present(arch); }
    match profile.transport {
      case Tftp => reply := reply.(bootFile := profile.bootFile, nextServer := cfg.ip.value);
      case Http =>
        reply := reply.(phase := FirmwareHttp, bootFile := Url(cfg, "/" + profile.bootFile),
                        vendorClass := "HTTPClient", nextServer := cfg.ip.value);
    }
    return Sent(reply, noted);
  }

  predicate FromPxe(req: Request) {
    (req.kind == Discover || req.kind == RequestMessage) && IsPxe(req.vendorClass)
  }

  predicate WellFormed(req: Request, cfg: Config) {
    ConfigOk(cfg) && FromPxe(req)
  }

  /** The names of the embedded boot binaries. */
  const BINARIES: set<string> := {"undionly.kpxe", "snponly.efi", "ipxe-arm64.efi"}

  ghost predicate ServesBinary(r: Reply, cfg: Config)
    requires ConfigOk(cfg)
  {
    r.phase != IpxeScript && exists b :: b in BINARIES && (r.bootFile == b || r.bootFile == Url(cfg, "/" + b))
  }

  /** No chainload loop: a client that says it is iPXE is always answered, always with the script
      and never with a boot binary; a firmware client never gets the script; and the message type
      mirrors the request. */
  lemma NoChainloadLoop(req: Request, cfg: Config, req': Request)
    requires WellFormed(req, cfg) && WellFormed(req', cfg) && cfg.scriptPath == "/boot.ipxe"
    requires IsIpxe(req, cfg) && !IsIpxe(req', cfg)
    ensures var d, d' := Decide(req, cfg), Decide(req', cfg);
      && d.Sent? && d.reply.phase == IpxeScript && d.reply.bootFile == Url(cfg, "/boot.ipxe")
      && (forall b | b in BINARIES :: d.reply.bootFile != b && d.reply.bootFile != Url(cfg, "/" + b))
      && (d.reply.kind == Ack <==> req.kind == RequestMessage)
      && (d'.Sent? ==> ServesBinary(d'.reply, cfg) && d'.reply.bootFile != d.reply.bootFile)
  {
    hide Text.Decimal, FleetFile.Lookup, IsPxe;
    var head := "http://" + cfg.ip.value + ":" + Text.Decimal(cfg.port);
    forall b | b in BINARIES ensures Url(cfg, "/boot.ipxe") != b && Url(cfg, "/boot.ipxe") != Url(cfg, "/" + b) {
      assert Url(cfg, "/boot.ipxe")[0] == 'h' && b[0] in ['u', 's', 'i'];
      assert Url(cfg, "/boot.ipxe")[|head| + 1] == 'b' && Url(cfg, "/" + b)[|head| + 1] == b[0];
    }
    assert LookupArch(SelectArch(req'.archs)).0.bootFile in BINARIES;
  }

  /** Exactly when a firmware client is answered. */
  lemma FirmwareAnswer(req: Request, cfg: Config)
    requires WellFormed(req, cfg) && !IsIpxe(req, cfg)
    ensures Decide(req, cfg).Sent? <==>
      (Known(req, cfg) ==> HasPending(req, cfg) || (cfg.pending.Absent? && !Deployed(req, cfg)))
    ensures Decide(req, cfg) == Skipped(AlreadyDeployed) <==> Known(req, cfg) && !HasPending(req, cfg) && Deployed(req, cfg)
    ensures Decide(req, cfg).Sent? && Decide(req, cfg).noted.Present? ==> !Known(req, cfg)
  {
  }

  // ----- the decision, read off the request alone -----

  /** What the firmware is handed, by the first option-93 code: legacy BIOS, also when it sends none,
      gets undionly by TFTP; ARM gets its own build; everything else, a code the server does not know
      included, gets snponly; and the two HTTP codes get a URL and the HTTPClient class. */
  ghost predicate Handed(archs: seq<Arch>, ip: string, port: int, r: Reply)
    requires port >= 0
  {
    var web := "http://" + ip + ":" + Text.Decimal(port);
    && r.nextServer == ip
    && (archs == [] || archs[0] == X86Pc ==>
          r.phase == FirmwareTftp && r.bootFile == "undionly.kpxe" && r.vendorClass == "PXEClient")
    && (archs != [] && (archs[0] == EfiX64 || archs[0] == EfiIa32 || archs[0].OtherArch?) ==>
          r.phase == FirmwareTftp && r.bootFile == "snponly.efi" && r.vendorClass == "PXEClient")
    && (archs != [] && archs[0] == EfiArm64 ==>
          r.phase == FirmwareTftp && r.bootFile == "ipxe-arm64.efi" && r.vendorClass == "PXEClient")
    && (archs != [] && archs[0] == EfiX64Http ==>
          r.phase == FirmwareHttp && r.bootFile == web + "/snponly.efi" && r.vendorClass == "HTTPClient")
    && (archs != [] && archs[0] == EfiArm64Http ==>
          r.phase == FirmwareHttp && r.bootFile == web + "/ipxe-arm64.efi" && r.vendorClass == "HTTPClient")
  }

  /** iPXE gets the script's URL. */
  ghost predicate HandedScript(ip: string, port: int, path: string, r: Reply)
    requires port >= 0
  {
    && r.phase == IpxeScript && r.bootFile == "http://" + ip + ":" + Text.Decimal(port) + path
    && r.nextServer == ip && r.vendorClass == "PXEClient"
  }

  predicate PxeClass(vendorClass: string) {
    (|vendorClass| >= 9 && vendorClass[..9] == "PXEClient") || (|vendorClass| >= 10 && vendorClass[..10] == "HTTPClient")
  }

  /** The vendor class decides who is a PXE client, and the user class who is iPXE. */
  lemma ClassesMean(req: Request, cfg: Config)
    ensures IsPxe(req.vendorClass) <==> PxeClass(req.vendorClass)
    ensures IsIpxe(req, cfg) <==> (if cfg.ipxeClass == "" then "iPXE" else cfg.ipxeClass) in req.userClasses
  {
  }

  /** Every request a firmware gets answered: what the reply carries, and who is noted as discovered. */
  lemma FirmwareIsHanded(req: Request, cfg: Config)
    requires Decide(req, cfg).Sent? && (if cfg.ipxeClass == "" then "iPXE" else cfg.ipxeClass) !in req.userClasses
    ensures var d := Decide(req, cfg);
      && cfg.ip.Present? && 0 < cfg.port <= 65535
      && Handed(req.archs, cfg.ip.value, cfg.port, d.reply)
      && d.reply.kind == (if req.kind == RequestMessage then Ack else OfferMessage)
      && d.noted == (if cfg.fleet.Present? && FleetFile.Lookup(cfg.fleet.value, req.mac).name != "" then Absent
                     else Present(if req.archs == [] then X86Pc else req.archs[0]))
  {
    hide FleetFile.Lookup, Text.Decimal, IsPxe;
    var head := "http://" + cfg.ip.value + ":" + Text.Decimal(cfg.port);
    assert "/" + "snponly.efi" == "/snponly.efi" && "/" + "ipxe-arm64.efi" == "/ipxe-arm64.efi";
  }

  /** Who is refused and why, and what iPXE is handed. */
  lemma OthersAreTold(req: Request, cfg: Config)
    ensures var d, ipxe := Decide(req, cfg), (if cfg.ipxeClass == "" then "iPXE" else cfg.ipxeClass) in req.userClasses;
      var bad := cfg.ip.Absent? || cfg.port <= 0 || cfg.port > 65535;
      var kind := req.kind == Discover || req.kind == RequestMessage;
      var named := cfg.fleet.Present? && FleetFile.Lookup(cfg.fleet.value, req.mac).name != "";
      var queued := cfg.pending.Present? && cfg.pending.value(req.mac);
      var installed := cfg.lastEvent.Present? && cfg.lastEvent.value(req.mac) == At(InstallerDone);
      var firmware := !bad && kind && PxeClass(req.vendorClass) && !ipxe;
      && (d == BadConfig <==> bad)
      && (d == Skipped(UnsupportedMessage) <==> !bad && !kind)
      && (d == Skipped(NotPxe) <==> !bad && kind && !PxeClass(req.vendorClass))
      && (d == Skipped(AlreadyDeployed) <==> firmware && named && !queued && installed)
      && (d == Skipped(NoPendingAction) <==> firmware && named && !queued && !installed && cfg.pending.Present?)
      && (!bad && kind && PxeClass(req.vendorClass) && ipxe ==>
            && d.Sent? && d.noted == Absent && HandedScript(cfg.ip.value, cfg.port, cfg.scriptPath, d.reply)
            && d.reply.kind == (if req.kind == RequestMessage then Ack else OfferMessage))
  {
    hide FleetFile.Lookup, Text.Decimal, IsPxe, PxeClass, IsIpxe, FirmwareReply;
    ClassesMean(req, cfg);
  }
}
