/**
 What a root certificate's serialised TEE evidence says: which hardware branch it
 carries and, for SEV-SNP, what the report holds. Hashing, text decoding and the
 JSON of the Azure runtime data are parameters.
 */
module TeeEvidence {
  import opened Wrappers
  import opened ProtoWalker
  import opened LittleEndian

  datatype TeeType = SevSnpQemu | TdxQemu | TdxGcp | TdxAzure | SevSnpAzure

  function BranchField(number: nat): Option<TeeType> {
    if number == 1 then Some(SevSnpQemu)
    else if number == 2 then Some(TdxQemu)
    else if number == 3 then Some(TdxGcp)
    else if number == 4 then Some(TdxAzure)
    else if number == 5 then Some(SevSnpAzure)
    else None
  }

  datatype DecodeError =
    | EmptyEvidence
    | Malformed(walk: WalkError)
    | ManyBranches
    | NoBranch
    | NoReport
    | ShortReport
    | NoHclReport
    | ShortRuntime
    | RuntimeNotJson

  datatype Outcome<+T> = Ok(value: T) | Fail(error: DecodeError)

  /**
   `text` decodes and trims bytes; `userData` is the runtime JSON's `user-data`,
   empty if it is not hex, None if the bytes are not JSON.
   */
  datatype Host = Host(
    text: seq<Byte> -> string,
    sha256: seq<Byte> -> seq<Byte>,
    userData: seq<Byte> -> Option<seq<Byte>>)

  // ---------------------------------------------------------------------
  // The report
  // ---------------------------------------------------------------------

  const SNP_REPORT_BYTES: nat := 0x4a0
  const SNP_VERSION_OFFSET: nat := 0x00
  const SNP_GUEST_SVN_OFFSET: nat := 0x04
  const SNP_POLICY_OFFSET: nat := 0x08
  const SNP_VMPL_OFFSET: nat := 0x30
  const SNP_CURRENT_TCB_OFFSET: nat := 0x38
  const SNP_REPORT_DATA_OFFSET: nat := 0x50
  const SNP_REPORT_DATA_BYTES: nat := 64
  const SNP_MEASUREMENT_OFFSET: nat := 0x90
  const SNP_MEASUREMENT_BYTES: nat := 48
  const SNP_REPORTED_TCB_OFFSET: nat := 0x180
  const SNP_LAUNCH_TCB_OFFSET: nat := 0x1f0
  const SPKI_DIGEST_BYTES: nat := 32

  datatype Policy = Policy(
    raw: nat, abiMinor: nat, abiMajor: nat, smtAllowed: bool, migrateMaAllowed: bool, debugAllowed: bool,
    singleSocketRequired: bool, ciphertextHiding: bool, pageSwapDisabled: bool)

  datatype Tcb = Tcb(raw: nat, bootLoader: nat, tee: nat, snp: nat, microcode: nat)

  datatype Security = Security(
    reportVersion: nat, guestSvn: nat, vmpl: nat, policy: Policy, launchTcb: Tcb, currentTcb: Tcb, reportedTcb: Tcb)

  function PolicyOf(policy: nat): Policy {
    Policy(policy, policy % 256, policy / 256 % 256, BitSet(policy, 16), BitSet(policy, 18), BitSet(policy, 19),
           BitSet(policy, 20), BitSet(policy, 24), BitSet(policy, 25))
  }

  function TcbOf(tcb: nat): Tcb {
    Tcb(tcb, ByteOf(tcb, 0), ByteOf(tcb, 1), ByteOf(tcb, 6), ByteOf(tcb, 7))
  }

  function Slice(bytes: seq<Byte>, offset: nat, width: nat): (s: seq<Byte>)
    requires offset + width <= |bytes|
    ensures |s| == width && forall i | 0 <= i < width :: s[i] == bytes[offset + i]
  {
    bytes[offset..offset + width]
  }

  function SecurityOf(report: seq<Byte>): Security
    requires |report| >= SNP_REPORT_BYTES
  {
    Security(
      Sum(Slice(report, SNP_VERSION_OFFSET, 4)),
      Sum(Slice(report, SNP_GUEST_SVN_OFFSET, 4)),
      Sum(Slice(report, SNP_VMPL_OFFSET, 4)),
      PolicyOf(Sum(Slice(report, SNP_POLICY_OFFSET, 8))),
      TcbOf(Sum(Slice(report, SNP_LAUNCH_TCB_OFFSET, 8))),
      TcbOf(Sum(Slice(report, SNP_CURRENT_TCB_OFFSET, 8))),
      TcbOf(Sum(Slice(report, SNP_REPORTED_TCB_OFFSET, 8))))
  }

  /** Every read is a loop over bytes that the length of a report covers. */
  method SecurityFieldsOf(report: seq<Byte>) returns (security: Security)
    requires |report| >= SNP_REPORT_BYTES
    ensures security == SecurityOf(report)
  {
    var version := ReadUintLE(report, SNP_VERSION_OFFSET, 4);
    var svn := ReadUintLE(report, SNP_GUEST_SVN_OFFSET, 4);
    var vmpl := ReadUintLE(report, SNP_VMPL_OFFSET, 4);
    var policy := ReadUintLE(report, SNP_POLICY_OFFSET, 8);
    var launch := ReadUintLE(report, SNP_LAUNCH_TCB_OFFSET, 8);
    var current := ReadUintLE(report, SNP_CURRENT_TCB_OFFSET, 8);
    var reported := ReadUintLE(report, SNP_REPORTED_TCB_OFFSET, 8);
    security := Security(version, svn, vmpl, PolicyOf(policy), TcbOf(launch), TcbOf(current), TcbOf(reported));
  }

  lemma TcbReadsBytes(report: seq<Byte>, offset: nat)
    requires offset + 8 <= |report|
    ensures var tcb := TcbOf(Sum(Slice(report, offset, 8)));
            && tcb.bootLoader == report[offset] && tcb.tee == report[offset + 1]
            && tcb.snp == report[offset + 6] && tcb.microcode == report[offset + 7]
  {
    hide ByteOf, Sum;
    var s := Slice(report, offset, 8);
    ByteOfSum(s, 0);
    ByteOfSum(s, 1);
    ByteOfSum(s, 6);
    ByteOfSum(s, 7);
  }

  lemma PolicyReadsBytes(report: seq<Byte>, offset: nat)
    requires offset + 8 <= |report|
    ensures var policy := PolicyOf(Sum(Slice(report, offset, 8)));
            && policy.abiMinor == report[offset] && policy.abiMajor == report[offset + 1]
            && policy.smtAllowed == BitSet(report[offset + 2], 0)
            && policy.migrateMaAllowed == BitSet(report[offset + 2], 2)
            && policy.debugAllowed == BitSet(report[offset + 2], 3)
            && policy.singleSocketRequired == BitSet(report[offset + 2], 4)
            && policy.ciphertextHiding == BitSet(report[offset + 3], 0)
            && policy.pageSwapDisabled == BitSet(report[offset + 3], 1)
  {
    hide BitSet, ByteOf;
    var s := Slice(report, offset, 8);
    SumTail(s);
    SumTail(s[1..]);
    BitOfSum(s, 16);
    BitOfSum(s, 18);
    BitOfSum(s, 19);
    BitOfSum(s, 20);
    BitOfSum(s, 24);
    BitOfSum(s, 25);
  }

  /** Every decomposed field is read from the report bytes the layout gives it. */
  lemma SecurityReadsTheReport(report: seq<Byte>)
    requires |report| >= SNP_REPORT_BYTES
    ensures var s := SecurityOf(report);
            && s.launchTcb.bootLoader == report[0x1f0] && s.launchTcb.tee == report[0x1f1]
            && s.launchTcb.snp == report[0x1f6] && s.launchTcb.microcode == report[0x1f7]
            && s.currentTcb.bootLoader == report[0x38] && s.currentTcb.tee == report[0x39]
            && s.currentTcb.snp == report[0x3e] && s.currentTcb.microcode == report[0x3f]
            && s.reportedTcb.bootLoader == report[0x180] && s.reportedTcb.tee == report[0x181]
            && s.reportedTcb.snp == report[0x186] && s.reportedTcb.microcode == report[0x187]
            && s.policy.abiMinor == report[0x08] && s.policy.abiMajor == report[0x09]
            && s.policy.debugAllowed == BitSet(report[0x0a], 3)
            && s.policy.smtAllowed == BitSet(report[0x0a], 0)
            && s.policy.migrateMaAllowed == BitSet(report[0x0a], 2)
            && s.policy.singleSocketRequired == BitSet(report[0x0a], 4)
            && s.policy.ciphertextHiding == BitSet(report[0x0b], 0)
            && s.policy.pageSwapDisabled == BitSet(report[0x0b], 1)
  {
    hide TcbOf, PolicyOf, BitSet, Sum;
    TcbReadsBytes(report, SNP_LAUNCH_TCB_OFFSET);
    TcbReadsBytes(report, SNP_CURRENT_TCB_OFFSET);
    TcbReadsBytes(report, SNP_REPORTED_TCB_OFFSET);
    PolicyReadsBytes(report, SNP_POLICY_OFFSET);
  }

  function BindsPublicKey(reportData: seq<Byte>, spki: seq<Byte>): bool {
    |spki| == SPKI_DIGEST_BYTES && |reportData| >= SPKI_DIGEST_BYTES && reportData[..SPKI_DIGEST_BYTES] == spki
  }

  /**
   The comparison, which looks at every byte instead of stopping at the first
   difference; the accumulated bits are kept only as whether any of them is set.
   */
  method BindsPublicKeyLoop(reportData: seq<Byte>, spki: seq<Byte>) returns (binds: bool)
    ensures binds == BindsPublicKey(reportData, spki)
  {
    if |spki| != SPKI_DIGEST_BYTES || |reportData| < SPKI_DIGEST_BYTES {
      return false;
    }
    var differs := false;
    var index := 0;
    while index < SPKI_DIGEST_BYTES
      invariant 0 <= index <= SPKI_DIGEST_BYTES
      invariant !differs <==> reportData[..index] == spki[..index]
    {
      OneMoreByte(reportData, spki, index);
      differs := differs || reportData[index] != spki[index];
      index := index + 1;
    }
    assert spki[..SPKI_DIGEST_BYTES] == spki;
    binds := !differs;
  }

  lemma OneMoreByte(s: seq<Byte>, t: seq<Byte>, i: nat)
    requires i < |s| && i < |t|
    ensures s[..i + 1] == t[..i + 1] <==> s[..i] == t[..i] && s[i] == t[i]
  {
    assert s[..i + 1] == s[..i] + [s[i]] && t[..i + 1] == t[..i] + [t[i]];
  }

  // ---------------------------------------------------------------------
  // The SEV-SNP branch
  // ---------------------------------------------------------------------

  /** The report and the release seen so far; a later occurrence replaces an earlier one. */
  datatype Seen = Seen(raw: Option<seq<Byte>>, build: Option<string>)

  function SeeInner(host: Host, seen: Seen, f: Field): Seen {
    if f.Bytes? && f.number == 1 then seen.(raw := Some(f.bytes))
    else if f.Bytes? && f.number == 5 then
      var text := host.text(f.bytes);
      seen.(build := if text == "" then None else Some(text))
    else seen
  }

  function SeeAllInner(host: Host, seen: Seen, fs: seq<Field>): Seen
    decreases |fs|
  {
    if fs == [] then seen else SeeAllInner(host, SeeInner(host, seen, fs[0]), fs[1..])
  }

  /** An inner message that does not parse ends the walk of the outer one there. */
  function SeeOuter(host: Host, seen: Seen, fs: seq<Field>): Outcome<Seen>
    decreases |fs|
  {
    if fs == [] then Ok(seen)
    else if fs[0].Bytes? && fs[0].number == 1 then
      var inner := Fields(fs[0].bytes);
      if inner.error.Some? then Fail(Malformed(inner.error.value))
      else SeeOuter(host, SeeAllInner(host, seen, inner.fields), fs[1..])
    else SeeOuter(host, seen, fs[1..])
  }

  function SnpReport(host: Host, branch: seq<Byte>): (r: Outcome<(seq<Byte>, Option<string>)>)
    ensures r.Ok? ==> |r.value.0| >= SNP_REPORT_BYTES
  {
    var outer := Fields(branch);
    match SeeOuter(host, Seen(None, None), outer.fields)
    case Fail(error) => Fail(error)
    case Ok(seen) =>
      if outer.error.Some? then Fail(Malformed(outer.error.value))
      else if seen.raw.None? then Fail(NoReport)
      else if |seen.raw.value| < SNP_REPORT_BYTES then Fail(ShortReport)
      else Ok((seen.raw.value, seen.build))
  }

  /** snpReport, as its two nested loops. */
  method SnpReportLoop(host: Host, branch: seq<Byte>) returns (r: Outcome<(seq<Byte>, Option<string>)>)
    ensures r == SnpReport(host, branch)
  {
    var seen := Seen(None, None);
    var outer := FieldsLoop(branch);
    for i := 0 to |outer.fields|
      invariant SeeOuter(host, Seen(None, None), outer.fields) == SeeOuter(host, seen, outer.fields[i..])
    {
      var field := outer.fields[i];
      assert outer.fields[i..][1..] == outer.fields[i + 1..];
      if field.Bytes? && field.number == 1 {
        var inner := FieldsLoop(field.bytes);
        ghost var before := seen;
        for j := 0 to |inner.fields|
          invariant SeeAllInner(host, before, inner.fields) == SeeAllInner(host, seen, inner.fields[j..])
        {
          assert inner.fields[j..][1..] == inner.fields[j + 1..];
          seen := SeeInner(host, seen, inner.fields[j]);
        }
        if inner.error.Some? {
          return Fail(Malformed(inner.error.value));
        }
      }
    }
    if outer.error.Some? {
      return Fail(Malformed(outer.error.value));
    }
    if seen.raw.None? {
      return Fail(NoReport);
    }
    if |seen.raw.value| < SNP_REPORT_BYTES {
      return Fail(ShortReport);
    }
    r := Ok((seen.raw.value, seen.build));
  }

  // ---------------------------------------------------------------------
  // The Azure branches
  // ---------------------------------------------------------------------

  const HCL_MAGIC: seq<Byte> := [0x48, 0x43, 0x4c, 0x41]
  const HCL_HEADER_BYTES: nat := 32
  const HCL_RUNTIME_HEADER_OFFSET: nat := HCL_HEADER_BYTES + SNP_REPORT_BYTES
  const HCL_RUNTIME_SIZE_OFFSET: nat := HCL_RUNTIME_HEADER_OFFSET + 16
  const HCL_RUNTIME_DATA_OFFSET: nat := HCL_RUNTIME_HEADER_OFFSET + 20
  const TDREPORT_DATA_OFFSET: nat := 128

  /** The last delimited field 1. */
  function HclOf(fs: seq<Field>): Option<seq<Byte>> {
    if fs == [] then None
    else
      var last := fs[|fs| - 1];
      if last.Bytes? && last.number == 1 then Some(last.bytes) else HclOf(fs[..|fs| - 1])
  }

  datatype Evidence = Evidence(
    tee: TeeType,
    build: Option<string>,
    measurement: Option<seq<Byte>>,
    keyBinding: Option<bool>,
    security: Option<Security>)

  /** What a well-formed HCL report yields: the runtime data it commits to and the hardware report it wraps. */
  function HclEvidence(host: Host, tee: TeeType, h: seq<Byte>, spki: seq<Byte>): Outcome<Evidence>
    requires |h| >= HCL_RUNTIME_DATA_OFFSET
  {
    var runtimeEnd := HCL_RUNTIME_DATA_OFFSET + Sum(Slice(h, HCL_RUNTIME_SIZE_OFFSET, 4));
    if runtimeEnd > |h| then Fail(ShortRuntime)
    else
      var runtime := h[HCL_RUNTIME_DATA_OFFSET..runtimeEnd];
      var hardware := Slice(h, HCL_HEADER_BYTES, SNP_REPORT_BYTES);
      var at := if tee == SevSnpAzure then SNP_REPORT_DATA_OFFSET else TDREPORT_DATA_OFFSET;
      var bound := BindsPublicKey(Slice(hardware, at, SNP_REPORT_DATA_BYTES), host.sha256(runtime));
      if bound && host.userData(runtime).None? then Fail(RuntimeNotJson)
      else
        var keyBinding := bound && BindsPublicKey(host.userData(runtime).value, spki);
        if tee == TdxAzure then Ok(Evidence(tee, None, None, Some(keyBinding), None))
        else
          Ok(Evidence(tee, None, Some(Slice(hardware, SNP_MEASUREMENT_OFFSET, SNP_MEASUREMENT_BYTES)),
                      Some(keyBinding), Some(SecurityOf(hardware))))
  }

  function AzureEvidence(host: Host, tee: TeeType, branch: seq<Byte>, spki: seq<Byte>): Outcome<Evidence> {
    var walk := Fields(branch);
    var hcl := HclOf(walk.fields);
    if walk.error.Some? then Fail(Malformed(walk.error.value))
    else if hcl.None? || |hcl.value| < HCL_RUNTIME_DATA_OFFSET || hcl.value[..4] != HCL_MAGIC then Fail(NoHclReport)
    else HclEvidence(host, tee, hcl.value, spki)
  }

  method HclFields(host: Host, tee: TeeType, h: seq<Byte>, spki: seq<Byte>) returns (r: Outcome<Evidence>)
    requires |h| >= HCL_RUNTIME_DATA_OFFSET
    ensures r == HclEvidence(host, tee, h, spki)
  {
    hide Sum, BindsPublicKey, SecurityOf;
    var runtimeSize := ReadUintLE(h, HCL_RUNTIME_SIZE_OFFSET, 4);
    var runtimeEnd := HCL_RUNTIME_DATA_OFFSET + runtimeSize;
    if runtimeEnd > |h| {
      return Fail(ShortRuntime);
    }
    var runtime := h[HCL_RUNTIME_DATA_OFFSET..runtimeEnd];
    var hardware := Slice(h, HCL_HEADER_BYTES, SNP_REPORT_BYTES);
    var at := if tee == SevSnpAzure then SNP_REPORT_DATA_OFFSET else TDREPORT_DATA_OFFSET;
    var keyBinding := BindsPublicKeyLoop(Slice(hardware, at, SNP_REPORT_DATA_BYTES), host.sha256(runtime));
    if keyBinding {
      var userData := host.userData(runtime);
      if userData.None? {
        return Fail(RuntimeNotJson);
      }
      keyBinding := BindsPublicKeyLoop(userData.value, spki);
    }
    if tee == TdxAzure {
      return Ok(Evidence(tee, None, None, Some(keyBinding), None));
    }
    var security := SecurityFieldsOf(hardware);
    r := Ok(Evidence(tee, None, Some(Slice(hardware, SNP_MEASUREMENT_OFFSET, SNP_MEASUREMENT_BYTES)),
                     Some(keyBinding), Some(security)));
  }

  /** azureFields: the loop that keeps the last HCL report, then the checks on it. */
  method AzureFieldsLoop(host: Host, tee: TeeType, branch: seq<Byte>, spki: seq<Byte>) returns (r: Outcome<Evidence>)
    ensures r == AzureEvidence(host, tee, branch, spki)
  {
    hide HclEvidence;
    var hcl: Option<seq<Byte>> := None;
    var walk := FieldsLoop(branch);
    for i := 0 to |walk.fields|
      invariant hcl == HclOf(walk.fields[..i])
    {
      assert walk.fields[..i + 1][..i] == walk.fields[..i];
      if walk.fields[i].Bytes? && walk.fields[i].number == 1 {
        hcl := Some(walk.fields[i].bytes);
      }
    }
    assert walk.fields[..|walk.fields|] == walk.fields;
    if walk.error.Some? {
      return Fail(Malformed(walk.error.value));
    }
    if hcl.None? || |hcl.value| < HCL_RUNTIME_DATA_OFFSET || hcl.value[..4] != HCL_MAGIC {
      return Fail(NoHclReport);
    }
    r := HclFields(host, tee, hcl.value, spki);
  }

  // ---------------------------------------------------------------------
  // The message
  // ---------------------------------------------------------------------

  predicate IsBranch(f: Field) {
    f.Bytes? && BranchField(f.number).Some?
  }

  /** The recognised branches of a message, in order. */
  function Branches(fs: seq<Field>): (bs: seq<Field>)
    ensures forall i | 0 <= i < |bs| :: IsBranch(bs[i])
  {
    if fs == [] then [] else (if IsBranch(fs[0]) then [fs[0]] else []) + Branches(fs[1..])
  }

  function EvidenceOf(host: Host, tee: TeeType, branch: seq<Byte>, spki: seq<Byte>): Outcome<Evidence> {
    if tee == TdxAzure || tee == SevSnpAzure then AzureEvidence(host, tee, branch, spki)
    else if tee != SevSnpQemu then Ok(Evidence(tee, None, None, None, None))
    else
      match SnpReport(host, branch)
      case Fail(error) => Fail(error)
      case Ok((raw, build)) =>
        Ok(Evidence(tee, build, Some(Slice(raw, SNP_MEASUREMENT_OFFSET, SNP_MEASUREMENT_BYTES)),
                    Some(BindsPublicKey(Slice(raw, SNP_REPORT_DATA_OFFSET, SNP_REPORT_DATA_BYTES), spki)),
                    Some(SecurityOf(raw))))
  }

  /** A second branch is refused as soon as it is met, before any error later in the message. */
  function Decode(host: Host, serialized: seq<Byte>, spki: seq<Byte>): Outcome<Evidence> {
    var walk := Fields(serialized);
    var branches := Branches(walk.fields);
    if serialized == [] then Fail(EmptyEvidence)
    else if |branches| > 1 then Fail(ManyBranches)
    else if walk.error.Some? then Fail(Malformed(walk.error.value))
    else if branches == [] then Fail(NoBranch)
    else EvidenceOf(host, BranchField(branches[0].number).value, branches[0].bytes, spki)
  }

  method DecodeEvidence(host: Host, serialized: seq<Byte>, spki: seq<Byte>) returns (r: Outcome<Evidence>)
    ensures r == Decode(host, serialized, spki)
  {
    if |serialized| == 0 {
      return Fail(EmptyEvidence);
    }
    var tee: Option<TeeType> := None;
    var branch: seq<Byte> := [];
    var walk := FieldsLoop(serialized);
    ghost var all := Branches(walk.fields);
    for i := 0 to |walk.fields|
      invariant tee.None? ==> all == Branches(walk.fields[i..])
      invariant tee.Some? ==>
                  |all| > 0 && BranchField(all[0].number) == tee && all[0].bytes == branch &&
                      all[1..] == Branches(walk.fields[i..])
    {
      var field := walk.fields[i];
      assert walk.fields[i..][1..] == walk.fields[i + 1..];
      if field.Bytes? && BranchField(field.number).Some? {
        if tee.Some? {
          return Fail(ManyBranches);
        }
        tee := BranchField(field.number);
        branch := field.bytes;
      }
    }
    if walk.error.Some? {
      return Fail(Malformed(walk.error.value));
    }
    if tee.None? {
      return Fail(NoBranch);
    }
    if tee == Some(TdxAzure) || tee == Some(SevSnpAzure) {
      r := AzureFieldsLoop(host, tee.value, branch, spki);
      return;
    }
    if tee != Some(SevSnpQemu) {
      return Ok(Evidence(tee.value, None, None, None, None));
    }
    var report := SnpReportLoop(host, branch);
    if report.Fail? {
      return Fail(report.error);
    }
    var raw := report.value.0;
    var keyBinding := BindsPublicKeyLoop(Slice(raw, SNP_REPORT_DATA_OFFSET, SNP_REPORT_DATA_BYTES), spki);
    var security := SecurityFieldsOf(raw);
    r := Ok(Evidence(SevSnpQemu, report.value.1, Some(Slice(raw, SNP_MEASUREMENT_OFFSET, SNP_MEASUREMENT_BYTES)),
                     Some(keyBinding), Some(security)));
  }

  // ---------------------------------------------------------------------
  // What decoding promises
  // ---------------------------------------------------------------------

  /** Field i is the one recognised branch among these. */
  ghost predicate OnlyBranch(fs: seq<Field>, i: nat) {
    i < |fs| && IsBranch(fs[i]) && forall j | 0 <= j < |fs| && j != i :: !IsBranch(fs[j])
  }

  lemma {:induction false} NoBranches(fs: seq<Field>)
    ensures Branches(fs) == [] <==> forall j | 0 <= j < |fs| :: !IsBranch(fs[j])
  {
    if fs != [] {
      NoBranches(fs[1..]);
      if Branches(fs) == [] {
        forall j | 0 <= j < |fs| ensures !IsBranch(fs[j]) {
          if j > 0 {
            assert !IsBranch(fs[1..][j - 1]);
          }
        }
      }
    }
  }

  lemma {:induction false} OneBranch(fs: seq<Field>) returns (i: nat)
    requires |Branches(fs)| == 1
    ensures OnlyBranch(fs, i) && Branches(fs) == [fs[i]]
  {
    if IsBranch(fs[0]) {
      i := 0;
      NoBranches(fs[1..]);
      forall j | 0 < j < |fs| ensures !IsBranch(fs[j]) {
        assert !IsBranch(fs[1..][j - 1]);
      }
    } else {
      i := OneBranch(fs[1..]);
      i := i + 1;
      forall j | 0 <= j < |fs| && j != i ensures !IsBranch(fs[j]) {
        if j > 0 {
          assert !IsBranch(fs[1..][j - 1]);
        }
      }
    }
  }

  lemma {:induction false} OnlyBranchIsFound(fs: seq<Field>, i: nat)
    requires OnlyBranch(fs, i)
    ensures Branches(fs) == [fs[i]]
  {
    if i == 0 {
      forall j | 0 <= j < |fs[1..]| ensures !IsBranch(fs[1..][j]) {
        assert !IsBranch(fs[j + 1]);
      }
      NoBranches(fs[1..]);
    } else {
      forall j | 0 <= j < |fs[1..]| && j != i - 1 ensures !IsBranch(fs[1..][j]) {
        assert !IsBranch(fs[j + 1]);
      }
      OnlyBranchIsFound(fs[1..], i - 1);
    }
  }

  /** The evidence of the hardware branch that field i carries. */
  function EvidenceOfField(host: Host, f: Field, spki: seq<Byte>): Outcome<Evidence>
    requires IsBranch(f)
  {
    EvidenceOf(host, BranchField(f.number).value, f.bytes, spki)
  }

  lemma EvidenceNamesItsBranch(host: Host, f: Field, spki: seq<Byte>)
    requires IsBranch(f) && EvidenceOfField(host, f, spki).Ok?
    ensures BranchField(f.number) == Some(EvidenceOfField(host, f, spki).value.tee)
  {
  }

  /**
   Decoding succeeds exactly when the whole message parses, exactly one of its
   fields is a recognised branch, and that branch decodes; the result is that branch's.
   */
  lemma DecodesExactlyOneBranch(host: Host, m: seq<Byte>, spki: seq<Byte>)
    ensures var fs, r := Fields(m).fields, Decode(host, m, spki);
            && (r.Ok? <==> Fields(m).error.None? &&
                           (exists i: nat :: OnlyBranch(fs, i) && EvidenceOfField(host, fs[i], spki).Ok?))
            && (forall i: nat | OnlyBranch(fs, i) && Fields(m).error.None? ::
                  r == EvidenceOfField(host, fs[i], spki) && (r.Ok? ==> BranchField(fs[i].number) == Some(r.value.tee)))
  {
    hide EvidenceOf, BranchField;
    var fs := Fields(m).fields;
    forall i: nat | OnlyBranch(fs, i)
      ensures Branches(fs) == [fs[i]] && m != []
      ensures EvidenceOfField(host, fs[i], spki).Ok? ==>
                BranchField(fs[i].number) == Some(EvidenceOfField(host, fs[i], spki).value.tee)
    {
      OnlyBranchIsFound(fs, i);
      if EvidenceOfField(host, fs[i], spki).Ok? {
        EvidenceNamesItsBranch(host, fs[i], spki);
      }
    }
    if |Branches(fs)| == 1 {
      var i := OneBranch(fs);
    }
  }

  // ---------------------------------------------------------------------
  // Unknown fields
  // ---------------------------------------------------------------------

  lemma {:induction false} BranchesConcat(f: seq<Field>, g: seq<Field>)
    ensures Branches(f + g) == Branches(f) + Branches(g)
  {
    if f == [] {
      assert f + g == g;
    } else {
      BranchesConcat(f[1..], g);
      assert (f + g)[1..] == f[1..] + g;
    }
  }

  /** Fields of no meaning to this reader, inserted at any field boundary of the message, change nothing. */
  lemma UnknownFieldsAreSkipped(host: Host, a: seq<Byte>, u: seq<Byte>, b: seq<Byte>, spki: seq<Byte>)
    requires Fields(a).error.None? && Fields(u).error.None?
    requires forall i | 0 <= i < |Fields(u).fields| :: !IsBranch(Fields(u).fields[i])
    requires a + b != []
    ensures Decode(host, a + (u + b), spki) == Decode(host, a + b, spki)
  {
    hide EvidenceOf, Fields, Branches, IsBranch;
    WalkIsHomomorphic(a, u + b);
    WalkIsHomomorphic(u, b);
    WalkIsHomomorphic(a, b);
    BranchesWithout(Fields(a).fields, Fields(u).fields, Fields(b).fields);
    assert |a + (u + b)| >= |a + b| > 0;
  }

  lemma BranchesWithout(fa: seq<Field>, fu: seq<Field>, fb: seq<Field>)
    requires forall i | 0 <= i < |fu| :: !IsBranch(fu[i])
    ensures Branches(fa + (fu + fb)) == Branches(fa + fb)
  {
    hide Branches, IsBranch;
    BranchesConcat(fa, fu + fb);
    BranchesConcat(fu, fb);
    BranchesConcat(fa, fb);
    NoBranches(fu);
    assert [] + Branches(fb) == Branches(fb);
  }

  /** Replacing the payload of one branch field by another that means the same changes nothing. */
  lemma BranchPayloadDecides(
      host: Host, a: seq<Byte>, n: nat, p: seq<Byte>, q: seq<Byte>, b: seq<Byte>, spki: seq<Byte>)
    requires Fields(a).error.None? && BranchField(n).Some?
    requires WellFormed(BytesRecord(n, p)) && WellFormed(BytesRecord(n, q))
    requires EvidenceOf(host, BranchField(n).value, p, spki) == EvidenceOf(host, BranchField(n).value, q, spki)
    ensures Decode(host, a + (EncodeRecord(BytesRecord(n, p)) + b), spki) ==
            Decode(host, a + (EncodeRecord(BytesRecord(n, q)) + b), spki)
  {
    hide EvidenceOf, Fields, EncodeRecord, WellFormed;
    var rp, rq := EncodeRecord(BytesRecord(n, p)), EncodeRecord(BytesRecord(n, q));
    RecordRoundTrip(BytesRecord(n, p));
    RecordRoundTrip(BytesRecord(n, q));
    WalkIsHomomorphic(a, rp + b);
    WalkIsHomomorphic(a, rq + b);
    WalkIsHomomorphic(rp, b);
    WalkIsHomomorphic(rq, b);
    var fa, fb := Fields(a).fields, Fields(b).fields;
    BranchesOfPayload(fa, n, p, fb);
    BranchesOfPayload(fa, n, q, fb);
    RecordIsNotEmpty(BytesRecord(n, p));
    RecordIsNotEmpty(BytesRecord(n, q));
  }

  lemma BranchesOfPayload(fa: seq<Field>, n: nat, p: seq<Byte>, fb: seq<Field>)
    requires BranchField(n).Some?
    ensures Branches(fa + ([Bytes(n, p)] + fb)) == Branches(fa) + ([Bytes(n, p)] + Branches(fb))
  {
    BranchesConcat(fa, [Bytes(n, p)] + fb);
    BranchesConcat([Bytes(n, p)], fb);
    assert Branches([Bytes(n, p)]) == [Bytes(n, p)] + Branches([]);
  }

  lemma RecordIsNotEmpty(r: Record)
    ensures EncodeRecord(r) != []
  {
  }

  predicate IsInner(f: Field) {
    f.Bytes? && (f.number == 1 || f.number == 5)
  }

  predicate IsOuter(f: Field) {
    f.Bytes? && f.number == 1
  }

  lemma {:induction false} SeeInnerConcat(host: Host, seen: Seen, f: seq<Field>, g: seq<Field>)
    ensures SeeAllInner(host, seen, f + g) == SeeAllInner(host, SeeAllInner(host, seen, f), g)
    decreases |f|
  {
    if f == [] {
      assert f + g == g;
    } else {
      SeeInnerConcat(host, SeeInner(host, seen, f[0]), f[1..], g);
      assert (f + g)[1..] == f[1..] + g;
    }
  }

  lemma {:induction false} SeeInnerNothing(host: Host, seen: Seen, f: seq<Field>)
    requires forall i | 0 <= i < |f| :: !IsInner(f[i])
    ensures SeeAllInner(host, seen, f) == seen
    decreases |f|
  {
    if f != [] {
      assert !IsInner(f[0]);
      SeeInnerNothing(host, seen, f[1..]);
    }
  }

  lemma {:induction false} SeeOuterConcat(host: Host, seen: Seen, f: seq<Field>, g: seq<Field>)
    ensures SeeOuter(host, seen, f + g) ==
            match SeeOuter(host, seen, f) { case Fail(error) => Fail(error) case Ok(s) => SeeOuter(host, s, g) }
    decreases |f|
  {
    hide SeeAllInner, Fields;
    if f == [] {
      assert f + g == g;
    } else {
      assert (f + g)[1..] == f[1..] + g && (f + g)[0] == f[0];
      if IsOuter(f[0]) {
        var inner := Fields(f[0].bytes);
        if inner.error.None? {
          SeeOuterConcat(host, SeeAllInner(host, seen, inner.fields), f[1..], g);
        }
      } else {
        SeeOuterConcat(host, seen, f[1..], g);
      }
    }
  }

  lemma {:induction false} SeeOuterNothing(host: Host, seen: Seen, f: seq<Field>)
    requires forall i | 0 <= i < |f| :: !IsOuter(f[i])
    ensures SeeOuter(host, seen, f) == Ok(seen)
    decreases |f|
  {
    if f != [] {
      assert !IsOuter(f[0]);
      SeeOuterNothing(host, seen, f[1..]);
    }
  }

  /** The same inside the SEV-SNP branch: unknown fields beside the report. */
  lemma UnknownFieldsBesideTheReport(host: Host, a: seq<Byte>, u: seq<Byte>, b: seq<Byte>)
    requires Fields(a).error.None? && Fields(u).error.None?
    requires forall i | 0 <= i < |Fields(u).fields| :: !IsOuter(Fields(u).fields[i])
    ensures SnpReport(host, a + (u + b)) == SnpReport(host, a + b)
  {
    hide Fields, SeeAllInner;
    WalkIsHomomorphic(a, u + b);
    WalkIsHomomorphic(u, b);
    WalkIsHomomorphic(a, b);
    var fa, fu, fb := Fields(a).fields, Fields(u).fields, Fields(b).fields;
    var start := Seen(None, None);
    SeeOuterConcat(host, start, fa, fu + fb);
    SeeOuterConcat(host, start, fa, fb);
    if SeeOuter(host, start, fa).Ok? {
      var seen := SeeOuter(host, start, fa).value;
      SeeOuterConcat(host, seen, fu, fb);
      SeeOuterNothing(host, seen, fu);
    }
  }

  lemma UnknownFieldsOfInner(host: Host, seen: Seen, x: seq<Byte>, u: seq<Byte>, y: seq<Byte>)
    requires Fields(x).error.None? && Fields(u).error.None?
    requires forall i | 0 <= i < |Fields(u).fields| :: !IsInner(Fields(u).fields[i])
    ensures Fields(x + (u + y)).error == Fields(x + y).error
    ensures SeeAllInner(host, seen, Fields(x + (u + y)).fields) == SeeAllInner(host, seen, Fields(x + y).fields)
  {
    hide Fields;
    WalkIsHomomorphic(x, u + y);
    WalkIsHomomorphic(u, y);
    WalkIsHomomorphic(x, y);
    var fx, fu, fy := Fields(x).fields, Fields(u).fields, Fields(y).fields;
    SeeInnerConcat(host, seen, fx, fu + fy);
    SeeInnerConcat(host, seen, fx, fy);
    var seenX := SeeAllInner(host, seen, fx);
    SeeInnerConcat(host, seenX, fu, fy);
    SeeInnerNothing(host, seenX, fu);
  }

  /** And two levels down, inside the report message itself. */
  lemma UnknownFieldsInsideTheReport(
      host: Host, a: seq<Byte>, x: seq<Byte>, u: seq<Byte>, y: seq<Byte>, b: seq<Byte>)
    requires Fields(a).error.None? && Fields(x).error.None? && Fields(u).error.None?
    requires forall i | 0 <= i < |Fields(u).fields| :: !IsInner(Fields(u).fields[i])
    requires WellFormed(BytesRecord(1, x + (u + y))) && WellFormed(BytesRecord(1, x + y))
    ensures SnpReport(host, a + (EncodeRecord(BytesRecord(1, x + (u + y))) + b)) ==
            SnpReport(host, a + (EncodeRecord(BytesRecord(1, x + y)) + b))
  {
    hide Fields, SeeAllInner, EncodeRecord, WellFormed;
    var p, q := x + (u + y), x + y;
    var rp, rq := EncodeRecord(BytesRecord(1, p)), EncodeRecord(BytesRecord(1, q));
    RecordRoundTrip(BytesRecord(1, p));
    RecordRoundTrip(BytesRecord(1, q));
    WalkIsHomomorphic(a, rp + b);
    WalkIsHomomorphic(a, rq + b);
    WalkIsHomomorphic(rp, b);
    WalkIsHomomorphic(rq, b);
    var fa, fb, start := Fields(a).fields, Fields(b).fields, Seen(None, None);
    SeeOuterConcat(host, start, fa, [Bytes(1, p)] + fb);
    SeeOuterConcat(host, start, fa, [Bytes(1, q)] + fb);
    if SeeOuter(host, start, fa).Ok? {
      var seen := SeeOuter(host, start, fa).value;
      UnknownFieldsOfInner(host, seen, x, u, y);
      assert ([Bytes(1, p)] + fb)[1..] == fb && ([Bytes(1, q)] + fb)[1..] == fb;
    }
  }

  lemma {:induction false} HclConcat(f: seq<Field>, g: seq<Field>)
    ensures HclOf(f + g) == if HclOf(g).Some? then HclOf(g) else HclOf(f)
  {
    if g == [] {
      assert f + g == f;
    } else {
      HclConcat(f, g[..|g| - 1]);
      assert (f + g)[..|f + g| - 1] == f + g[..|g| - 1];
    }
  }

  lemma {:induction false} HclNothing(f: seq<Field>)
    requires forall i | 0 <= i < |f| :: !IsOuter(f[i])
    ensures HclOf(f) == None
  {
    if f != [] {
      assert !IsOuter(f[|f| - 1]);
      HclNothing(f[..|f| - 1]);
    }
  }

  /** And inside the Azure branches. */
  lemma UnknownFieldsBesideTheHclReport(
      host: Host, tee: TeeType, a: seq<Byte>, u: seq<Byte>, b: seq<Byte>, spki: seq<Byte>)
    requires Fields(a).error.None? && Fields(u).error.None?
    requires forall i | 0 <= i < |Fields(u).fields| :: !IsOuter(Fields(u).fields[i])
    ensures AzureEvidence(host, tee, a + (u + b), spki) == AzureEvidence(host, tee, a + b, spki)
  {
    hide Fields, HclEvidence;
    WalkIsHomomorphic(a, u + b);
    WalkIsHomomorphic(u, b);
    WalkIsHomomorphic(a, b);
    var fa, fu, fb := Fields(a).fields, Fields(u).fields, Fields(b).fields;
    HclConcat(fa, fu + fb);
    HclConcat(fu, fb);
    HclConcat(fa, fb);
    HclNothing(fu);
  }

  /** Inside the branch a message carries, whichever it is: the decoded result is the same. */
  lemma UnknownFieldsInABranch(
      host: Host, a: seq<Byte>, n: nat, x: seq<Byte>, u: seq<Byte>, y: seq<Byte>, b: seq<Byte>, spki: seq<Byte>)
    requires Fields(a).error.None? && Fields(x).error.None? && Fields(u).error.None?
    requires BranchField(n).Some?
    requires forall i | 0 <= i < |Fields(u).fields| :: !IsOuter(Fields(u).fields[i])
    requires WellFormed(BytesRecord(n, x + (u + y))) && WellFormed(BytesRecord(n, x + y))
    ensures Decode(host, a + (EncodeRecord(BytesRecord(n, x + (u + y))) + b), spki) ==
            Decode(host, a + (EncodeRecord(BytesRecord(n, x + y)) + b), spki)
  {
    hide Fields, WellFormed, EncodeRecord, SnpReport, AzureEvidence, Decode, SecurityOf;
    var tee := BranchField(n).value;
    if tee == SevSnpQemu {
      UnknownFieldsBesideTheReport(host, x, u, y);
    } else if tee == TdxAzure || tee == SevSnpAzure {
      UnknownFieldsBesideTheHclReport(host, tee, x, u, y, spki);
    }
    BranchPayloadDecides(host, a, n, x + (u + y), x + y, b, spki);
  }

  /** Three levels down: inside the report message of the SEV-SNP branch of a message. */
  lemma UnknownFieldsInTheReportMessage(
      host: Host, a: seq<Byte>, p: seq<Byte>, x: seq<Byte>, u: seq<Byte>, y: seq<Byte>, q: seq<Byte>, b: seq<Byte>,
      spki: seq<Byte>)
    requires Fields(a).error.None? && Fields(p).error.None? && Fields(x).error.None? && Fields(u).error.None?
    requires forall i | 0 <= i < |Fields(u).fields| :: !IsInner(Fields(u).fields[i])
    requires WellFormed(BytesRecord(1, x + (u + y))) && WellFormed(BytesRecord(1, x + y))
    requires WellFormed(BytesRecord(1, p + (EncodeRecord(BytesRecord(1, x + (u + y))) + q)))
    requires WellFormed(BytesRecord(1, p + (EncodeRecord(BytesRecord(1, x + y)) + q)))
    ensures var longer := p + (EncodeRecord(BytesRecord(1, x + (u + y))) + q);
            var shorter := p + (EncodeRecord(BytesRecord(1, x + y)) + q);
            Decode(host, a + (EncodeRecord(BytesRecord(1, longer)) + b), spki) ==
            Decode(host, a + (EncodeRecord(BytesRecord(1, shorter)) + b), spki)
  {
    hide Fields, WellFormed, EncodeRecord, SnpReport, AzureEvidence, Decode, SecurityOf;
    UnknownFieldsInsideTheReport(host, p, x, u, y, q);
    BranchPayloadDecides(host, a, 1, p + (EncodeRecord(BytesRecord(1, x + (u + y))) + q),
                         p + (EncodeRecord(BytesRecord(1, x + y)) + q), b, spki);
  }
}
