/**
 What decoded evidence says, by the byte: which field number is which branch, where
 in a report every value is read, what a key binding compares, and which message is
 refused for what.
 */
module EvidenceLaws {
  import opened Wrappers
  import opened ProtoWalker
  import opened LittleEndian
  import opened TeeEvidence

  // ---------------------------------------------------------------------
  // The report
  // ---------------------------------------------------------------------

  /** Four bytes, the least significant first. */
  function Word(b: seq<Byte>, at: nat): nat
    requires at + 4 <= |b|
  {
    b[at] as int + 0x100 * b[at + 1] as int + 0x1_0000 * b[at + 2] as int + 0x100_0000 * b[at + 3] as int
  }

  lemma SumOfFour(b: seq<Byte>, at: nat)
    requires at + 4 <= |b|
    ensures Sum(Slice(b, at, 4)) == Word(b, at)
  {
    var s := Slice(b, at, 4);
    assert s[1..][1..] == s[2..] && s[2..][1..] == s[3..] && s[3..][1..] == [];
    assert Sum(s[3..]) == s[3] && Sum(s[2..]) == s[2] + 256 * Sum(s[3..]);
    assert Sum(s[1..]) == s[1] + 256 * Sum(s[2..]);
  }

  lemma {:induction false} SumOfConcat(b: seq<Byte>, c: seq<Byte>)
    requires |b| == 4
    ensures Sum(b + c) == Sum(b) + 0x1_0000_0000 * Sum(c)
  {
    SumOfOneMore(b[3..], c);
    SumOfOneMore(b[2..], c);
    SumOfOneMore(b[1..], c);
    SumOfOneMore(b, c);
    assert b[1..][1..] == b[2..] && b[2..][1..] == b[3..] && b[3..][1..] == [] && [] + c == c;
  }

  lemma SumOfOneMore(b: seq<Byte>, c: seq<Byte>)
    requires b != []
    ensures Sum(b + c) == b[0] + 256 * Sum(b[1..] + c) && Sum(b) == b[0] + 256 * Sum(b[1..])
  {
    assert (b + c)[1..] == b[1..] + c;
  }

  lemma SumOfEight(b: seq<Byte>, at: nat)
    requires at + 8 <= |b|
    ensures Sum(Slice(b, at, 8)) == Word(b, at) + 0x1_0000_0000 * Word(b, at + 4)
  {
    hide Sum, Word;
    assert Slice(b, at, 8) == Slice(b, at, 4) + Slice(b, at + 4, 4);
    SumOfConcat(Slice(b, at, 4), Slice(b, at + 4, 4));
    SumOfFour(b, at);
    SumOfFour(b, at + 4);
  }

  /** The whole numbers of a report, and the raw words its flags and versions are taken from. */
  lemma WordsOfTheReport(report: seq<Byte>)
    requires |report| >= 1184
    ensures var s := SecurityOf(report);
            && s.reportVersion == Word(report, 0x00) && s.guestSvn == Word(report, 0x04) && s.vmpl == Word(report, 0x30)
            && s.policy.raw == Word(report, 0x08) + 0x1_0000_0000 * Word(report, 0x0c)
            && s.currentTcb.raw == Word(report, 0x38) + 0x1_0000_0000 * Word(report, 0x3c)
            && s.reportedTcb.raw == Word(report, 0x180) + 0x1_0000_0000 * Word(report, 0x184)
            && s.launchTcb.raw == Word(report, 0x1f0) + 0x1_0000_0000 * Word(report, 0x1f4)
  {
    hide Sum, Word, BitSet, ByteOf;
    SumOfFour(report, 0x00);
    SumOfFour(report, 0x04);
    SumOfFour(report, 0x30);
    SumOfEight(report, 0x08);
    SumOfEight(report, 0x38);
    SumOfEight(report, 0x180);
    SumOfEight(report, 0x1f0);
  }

  /** A key is bound where 32 given bytes are the 32 of its digest. */
  predicate Binds(b: seq<Byte>, at: nat, digest: seq<Byte>) {
    |digest| == 32 && at + 32 <= |b| && b[at..at + 32] == digest
  }

  lemma BindingIsOfTheFirst32(b: seq<Byte>, at: nat, digest: seq<Byte>)
    requires at + 64 <= |b|
    ensures BindsPublicKey(Slice(b, at, 64), digest) <==> Binds(b, at, digest)
  {
    assert Slice(b, at, 64)[..32] == b[at..at + 32];
  }

  // ---------------------------------------------------------------------
  // The SEV-SNP branch
  // ---------------------------------------------------------------------

  /** A report message: the report and the release that produced it. */
  function ReportMessage(report: seq<Byte>, release: seq<Byte>): seq<Byte> {
    EncodeRecord(BytesRecord(1, report)) + EncodeRecord(BytesRecord(5, release))
  }

  predicate Fits(number: nat, bytes: seq<Byte>) {
    WellFormed(BytesRecord(number, bytes))
  }

  lemma FieldsOfOne(number: nat, bytes: seq<Byte>)
    requires Fits(number, bytes)
    ensures Fields(EncodeRecord(BytesRecord(number, bytes))) == Walk([Bytes(number, bytes)], None)
  {
    RecordRoundTrip(BytesRecord(number, bytes));
  }

  lemma FieldsOfReportMessage(report: seq<Byte>, release: seq<Byte>)
    requires Fits(1, report) && Fits(5, release)
    ensures Fields(ReportMessage(report, release)) == Walk([Bytes(1, report), Bytes(5, release)], None)
  {
    hide Fields, EncodeRecord, Fits;
    FieldsOfOne(1, report);
    FieldsOfOne(5, release);
    WalkIsHomomorphic(EncodeRecord(BytesRecord(1, report)), EncodeRecord(BytesRecord(5, release)));
    assert [Bytes(1, report)] + [Bytes(5, release)] == [Bytes(1, report), Bytes(5, release)];
  }

  lemma SeenInReportMessage(host: Host, seen: Seen, report: seq<Byte>, release: seq<Byte>)
    ensures SeeAllInner(host, seen, [Bytes(1, report), Bytes(5, release)]) ==
            Seen(Some(report), if host.text(release) == "" then None else Some(host.text(release)))
  {
    var fs := [Bytes(1, report), Bytes(5, release)];
    assert fs[1..] == [Bytes(5, release)] && fs[1..][1..] == [];
    assert SeeAllInner(host, SeeInner(host, SeeInner(host, seen, fs[0]), fs[1]), []) ==
           SeeInner(host, SeeInner(host, seen, fs[0]), fs[1]);
  }

  /**
   The report message that comes last decides: its field 1 is the report, refused below
   1184 bytes, and its field 5 the release, dropped if its text is empty.
   */
  lemma LastReportDecides(host: Host, before: seq<Byte>, report: seq<Byte>, release: seq<Byte>)
    requires Fields(before).error.None? && SeeOuter(host, Seen(None, None), Fields(before).fields).Ok?
    requires Fits(1, report) && Fits(5, release) && Fits(1, ReportMessage(report, release))
    ensures SnpReport(host, before + EncodeRecord(BytesRecord(1, ReportMessage(report, release)))) ==
            if |report| < 1184 then Fail(ShortReport)
            else Ok((report, if host.text(release) == "" then None else Some(host.text(release))))
  {
    hide Fields, EncodeRecord, Fits, ReportMessage, SeeAllInner;
    var m := ReportMessage(report, release);
    var fb := Fields(before).fields;
    FieldsOfOne(1, m);
    FieldsOfReportMessage(report, release);
    WalkIsHomomorphic(before, EncodeRecord(BytesRecord(1, m)));
    SeeOuterConcat(host, Seen(None, None), fb, [Bytes(1, m)]);
    var seen := SeeOuter(host, Seen(None, None), fb).value;
    SeenInReportMessage(host, seen, report, release);
    SeeOuterOne(host, seen, m);
  }

  lemma SeeOuterOne(host: Host, seen: Seen, m: seq<Byte>)
    requires Fields(m).error.None?
    ensures SeeOuter(host, seen, [Bytes(1, m)]) == Ok(SeeAllInner(host, seen, Fields(m).fields))
  {
    hide Fields, SeeAllInner;
    assert [Bytes(1, m)][1..] == [];
  }

  /** A branch with no report message at all is refused for that. */
  lemma NoReportIsRefused(host: Host, branch: seq<Byte>)
    requires Fields(branch).error.None?
    requires forall i | 0 <= i < |Fields(branch).fields| :: !IsOuter(Fields(branch).fields[i])
    ensures SnpReport(host, branch) == Fail(NoReport)
  {
    hide Fields;
    SeeOuterNothing(host, Seen(None, None), Fields(branch).fields);
  }

  /** A report message that does not parse. */
  ghost predicate Unparsed(f: Field) {
    IsOuter(f) && Fields(f.bytes).error.Some?
  }

  lemma {:induction false} AllParse(host: Host, seen: Seen, fs: seq<Field>)
    requires forall i | 0 <= i < |fs| :: !Unparsed(fs[i])
    ensures SeeOuter(host, seen, fs).Ok?
    decreases |fs|
  {
    hide Fields, SeeAllInner;
    if fs != [] {
      assert !Unparsed(fs[0]);
      AllParse(host, if IsOuter(fs[0]) then SeeAllInner(host, seen, Fields(fs[0].bytes).fields) else seen, fs[1..]);
    }
  }

  lemma {:induction false} FirstUnparsed(host: Host, seen: Seen, fs: seq<Field>, i: nat)
    requires i < |fs| && Unparsed(fs[i]) && forall j | 0 <= j < i :: !Unparsed(fs[j])
    ensures SeeOuter(host, seen, fs) == Fail(Malformed(Fields(fs[i].bytes).error.value))
    decreases |fs|
  {
    hide Fields, SeeAllInner;
    if i > 0 {
      assert !Unparsed(fs[0]);
      var seen' := if IsOuter(fs[0]) then SeeAllInner(host, seen, Fields(fs[0].bytes).fields) else seen;
      FirstUnparsed(host, seen', fs[1..], i - 1);
    }
  }

  /**
   A branch that does not parse is refused with the error its walk ends in, unless a report
   message before that does not parse: the first of them is what it is refused for.
   */
  lemma MalformedBranchesAreRefused(host: Host, branch: seq<Byte>, i: nat)
    ensures var fs := Fields(branch).fields;
            (forall j | 0 <= j < |fs| :: !Unparsed(fs[j])) && Fields(branch).error.Some? ==>
              SnpReport(host, branch) == Fail(Malformed(Fields(branch).error.value))
    ensures var fs := Fields(branch).fields;
            i < |fs| && Unparsed(fs[i]) && (forall j | 0 <= j < i :: !Unparsed(fs[j])) ==>
              SnpReport(host, branch) == Fail(Malformed(Fields(fs[i].bytes).error.value))
  {
    hide Fields, SeeOuter, Unparsed;
    var fs := Fields(branch).fields;
    if forall j | 0 <= j < |fs| :: !Unparsed(fs[j]) {
      AllParse(host, Seen(None, None), fs);
    }
    if i < |fs| && Unparsed(fs[i]) && forall j | 0 <= j < i :: !Unparsed(fs[j]) {
      FirstUnparsed(host, Seen(None, None), fs, i);
    }
  }

  // ---------------------------------------------------------------------
  // The Azure branches
  // ---------------------------------------------------------------------

  /** `h` is an HCL report whose runtime data, as long as the word at 1232 says, it holds in full. */
  predicate HoldsItsRuntime(h: seq<Byte>) {
    |h| >= 1236 && 1236 + Word(h, 1232) <= |h|
  }

  function RuntimeOf(h: seq<Byte>): seq<Byte>
    requires HoldsItsRuntime(h)
  {
    h[1236..1236 + Word(h, 1232)]
  }

  /** The report data of the hardware report commits to the runtime data. */
  predicate CommitsToRuntime(host: Host, tee: TeeType, h: seq<Byte>)
    requires HoldsItsRuntime(h)
  {
    Binds(h, if tee == SevSnpAzure then 112 else 160, host.sha256(RuntimeOf(h)))
  }

  /**
   What an HCL report says, by its bytes. The key is bound if and only if the hardware
   report commits to the runtime data and the runtime data names the key.
   */
  lemma HclReportSays(host: Host, tee: TeeType, h: seq<Byte>, spki: seq<Byte>)
    requires |h| >= 1236 && (tee == TdxAzure || tee == SevSnpAzure)
    ensures var r := HclEvidence(host, tee, h, spki);
            && (!HoldsItsRuntime(h) <==> r == Fail(ShortRuntime))
            && (HoldsItsRuntime(h) ==>
                  var user := host.userData(RuntimeOf(h));
                  && (r == Fail(RuntimeNotJson) <==> CommitsToRuntime(host, tee, h) && user.None?)
                  && (r != Fail(RuntimeNotJson) ==> r.Ok?)
                  && (r.Ok? ==>
                        && r.value.tee == tee && r.value.build.None?
                        && r.value.keyBinding ==
                           Some(CommitsToRuntime(host, tee, h) && user.Some? && Binds(user.value, 0, spki))
                        && r.value.measurement == (if tee == SevSnpAzure then Some(h[176..224]) else None)
                        && r.value.security == (if tee == SevSnpAzure then Some(SecurityOf(h[32..1216])) else None)))
  {
    hide Sum, SecurityOf;
    SumOfFour(h, 1232);
    hide Word;
    var hardware := Slice(h, 32, 1184);
    if HoldsItsRuntime(h) {
      var digest := host.sha256(RuntimeOf(h));
      HardwareAt(h, 80, digest);
      HardwareAt(h, 128, digest);
      assert Slice(hardware, 144, 48) == h[176..224];
      UserDataBinds(host.userData(RuntimeOf(h)), spki);
      hide BindsPublicKey, Binds;
    }
  }

  lemma HardwareAt(h: seq<Byte>, at: nat, digest: seq<Byte>)
    requires |h| >= 1216 && at + 64 <= 1184
    ensures BindsPublicKey(Slice(Slice(h, 32, 1184), at, 64), digest) <==> Binds(h, 32 + at, digest)
  {
    var hardware := Slice(h, 32, 1184);
    BindingIsOfTheFirst32(hardware, at, digest);
    assert hardware[at..at + 32] == h[32 + at..32 + at + 32];
  }

  lemma UserDataBinds(user: Option<seq<Byte>>, spki: seq<Byte>)
    ensures user.Some? ==> (BindsPublicKey(user.value, spki) <==> Binds(user.value, 0, spki))
  {
    if user.Some? && |user.value| >= 32 {
      assert user.value[..32] == user.value[0..0 + 32];
    }
  }

  /**
   The field 1 that comes last is the HCL report; it is refused below 1236 bytes or if it
   does not begin with the letters HCLA.
   */
  lemma LastHclReportDecides(host: Host, tee: TeeType, before: seq<Byte>, h: seq<Byte>, spki: seq<Byte>)
    requires Fields(before).error.None? && Fits(1, h)
    ensures AzureEvidence(host, tee, before + EncodeRecord(BytesRecord(1, h)), spki) ==
            if |h| < 1236 || h[..4] != [0x48, 0x43, 0x4c, 0x41] then Fail(NoHclReport)
            else HclEvidence(host, tee, h, spki)
  {
    hide Fields, EncodeRecord, Fits, HclEvidence;
    FieldsOfOne(1, h);
    WalkIsHomomorphic(before, EncodeRecord(BytesRecord(1, h)));
    HclConcat(Fields(before).fields, [Bytes(1, h)]);
    assert HclOf([Bytes(1, h)]) == Some(h);
  }

  lemma NoHclReportIsRefused(host: Host, tee: TeeType, branch: seq<Byte>, spki: seq<Byte>)
    requires Fields(branch).error.None?
    requires forall i | 0 <= i < |Fields(branch).fields| ::
               !(Fields(branch).fields[i].Bytes? && Fields(branch).fields[i].number == 1)
    ensures AzureEvidence(host, tee, branch, spki) == Fail(NoHclReport)
  {
    hide Fields, HclEvidence;
    HclNothing(Fields(branch).fields);
  }

  /** Before it is looked at: an Azure branch that does not parse is refused with the error its walk ends in. */
  lemma MalformedAzureBranchIsRefused(host: Host, tee: TeeType, branch: seq<Byte>, spki: seq<Byte>)
    ensures Fields(branch).error.Some? ==>
              AzureEvidence(host, tee, branch, spki) == Fail(Malformed(Fields(branch).error.value))
  {
    hide Fields, HclEvidence;
  }

  // ---------------------------------------------------------------------
  // The message
  // ---------------------------------------------------------------------

  /** A message of one branch, by its field number. */
  lemma BranchesByNumber(host: Host, number: nat, branch: seq<Byte>, spki: seq<Byte>)
    requires Fits(number, branch)
    ensures var r := Decode(host, EncodeRecord(BytesRecord(number, branch)), spki);
            && (number == 1 ==> match SnpReport(host, branch)
                                case Fail(error) => r == Fail(error)
                                case Ok((raw, build)) =>
                                  r == Ok(Evidence(SevSnpQemu, build, Some(raw[0x90..0xc0]),
                                                   Some(Binds(raw, 0x50, spki)), Some(SecurityOf(raw)))))
            && (number == 2 ==> r == Ok(Evidence(TdxQemu, None, None, None, None)))
            && (number == 3 ==> r == Ok(Evidence(TdxGcp, None, None, None, None)))
            && (number == 4 ==> r == AzureEvidence(host, TdxAzure, branch, spki))
            && (number == 5 ==> r == AzureEvidence(host, SevSnpAzure, branch, spki))
            && (number > 5 ==> r == Fail(NoBranch))
  {
    FieldsOfOne(number, branch);
    RecordIsNotEmpty(BytesRecord(number, branch));
    var f := Bytes(number, branch);
    assert [f][1..] == [] && Branches([]) == [];
    assert Branches([f]) == if IsBranch(f) then [f] else [];
    hide Fields, EncodeRecord, Fits, SnpReport, AzureEvidence, SecurityOf, Branches;
    if number == 1 && SnpReport(host, branch).Ok? {
      var raw := SnpReport(host, branch).value.0;
      BindingIsOfTheFirst32(raw, 0x50, spki);
      assert Slice(raw, 0x90, 48) == raw[0x90..0xc0];
    }
  }

  /** A field of the message that some reader takes for a hardware branch. */
  predicate IsNumbered(f: Field) {
    f.Bytes? && f.number in {1, 2, 3, 4, 5}
  }

  lemma NumberedIsBranch(f: Field)
    ensures IsNumbered(f) <==> IsBranch(f)
  {
  }

  /**
   Nothing is refused as empty; two branches are refused before any error behind them; then
   errors; then no branch.
   */
  lemma RefusalsInOrder(host: Host, m: seq<Byte>, spki: seq<Byte>)
    ensures Decode(host, [], spki) == Fail(EmptyEvidence)
    ensures m != [] ==>
              var walk, r := Fields(m), Decode(host, m, spki);
              if exists i, j :: 0 <= i < j < |walk.fields| && IsNumbered(walk.fields[i]) && IsNumbered(walk.fields[j])
              then r == Fail(ManyBranches)
              else if walk.error.Some? then r == Fail(Malformed(walk.error.value))
              else if forall i | 0 <= i < |walk.fields| :: !IsNumbered(walk.fields[i]) then r == Fail(NoBranch)
              else r != Fail(NoBranch) && r != Fail(ManyBranches) && r != Fail(EmptyEvidence)
  {
    hide Fields, BranchField, IsBranch, IsNumbered, EvidenceOf;
    var fs := Fields(m).fields;
    forall i | 0 <= i < |fs| ensures IsNumbered(fs[i]) <==> IsBranch(fs[i]) {
      NumberedIsBranch(fs[i]);
    }
    NoBranches(fs);
    TwoBranches(fs);
    if |Branches(fs)| == 1 {
      EvidenceIsNoRefusal(host, Branches(fs)[0], spki);
    }
  }

  lemma EvidenceIsNoRefusal(host: Host, f: Field, spki: seq<Byte>)
    requires IsBranch(f)
    ensures var r := EvidenceOf(host, BranchField(f.number).value, f.bytes, spki);
            r != Fail(NoBranch) && r != Fail(ManyBranches) && r != Fail(EmptyEvidence)
  {
    hide BranchField, Fields, SecurityOf, Sum;
    if SnpReport(host, f.bytes).Fail? {
      SeeOuterFailsMalformed(host, Seen(None, None), Fields(f.bytes).fields);
    }
  }

  lemma {:induction false} SeeOuterFailsMalformed(host: Host, seen: Seen, fs: seq<Field>)
    ensures SeeOuter(host, seen, fs).Fail? ==> SeeOuter(host, seen, fs).error.Malformed?
    decreases |fs|
  {
    hide Fields, SeeAllInner;
    if fs != [] {
      if fs[0].Bytes? && fs[0].number == 1 {
        SeeOuterFailsMalformed(host, SeeAllInner(host, seen, Fields(fs[0].bytes).fields), fs[1..]);
      } else {
        SeeOuterFailsMalformed(host, seen, fs[1..]);
      }
    }
  }

  lemma {:induction false} TwoBranches(fs: seq<Field>)
    ensures |Branches(fs)| > 1 <==> exists i, j :: 0 <= i < j < |fs| && IsBranch(fs[i]) && IsBranch(fs[j])
    decreases |fs|
  {
    hide IsBranch;
    if fs != [] {
      TwoBranches(fs[1..]);
      NoBranches(fs[1..]);
      if exists i, j :: 0 <= i < j < |fs| && IsBranch(fs[i]) && IsBranch(fs[j]) {
        var i, j :| 0 <= i < j < |fs| && IsBranch(fs[i]) && IsBranch(fs[j]);
        assert fs[1..][j - 1] == fs[j];
        if i > 0 {
          assert fs[1..][i - 1] == fs[i];
        }
      }
      if exists i, j :: 0 <= i < j < |fs[1..]| && IsBranch(fs[1..][i]) && IsBranch(fs[1..][j]) {
        var i, j :| 0 <= i < j < |fs[1..]| && IsBranch(fs[1..][i]) && IsBranch(fs[1..][j]);
        assert fs[i + 1] == fs[1..][i] && fs[j + 1] == fs[1..][j];
      }
      if IsBranch(fs[0]) && Branches(fs[1..]) != [] {
        var j :| 0 <= j < |fs[1..]| && IsBranch(fs[1..][j]);
        assert fs[j + 1] == fs[1..][j];
      }
    }
  }
}
