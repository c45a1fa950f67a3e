/**
 * The static invite-code table and its case-insensitive lookup.
 */
module InviteCodes {
  import opened Wrappers
  import opened Text

  datatype Role = Family | Guest

  datatype InviteCode = InviteCode(code: string, name: string, role: Role)

  const InviteCodesTable: seq<InviteCode> := [
    InviteCode("papa-2024", "Pap\U{00E1}", Family),
    InviteCode("mama-2024", "Mam\U{00E1}", Family),
    InviteCode("lia-2024", "Lia", Family),
    InviteCode("paola-2024", "Paola", Family),
    InviteCode("ivan-2024", "Ivan", Family),
    InviteCode("invitado-2024", "Invitado", Guest)
  ]

  /** Codes match when they agree after lower-casing both. */
  predicate Matches(entry: InviteCode, code: string) {
    ToLower(entry.code) == ToLower(code)
  }

  /** `codes[i]` matches and no earlier entry does. */
  predicate FirstMatchAt(codes: seq<InviteCode>, code: string, i: nat) {
    i < |codes| && Matches(codes[i], code) && forall j :: 0 <= j < i ==> !Matches(codes[j], code)
  }

  /** `Array.prototype.find` over `codes`: the first matching entry. */
  function FindCode(codes: seq<InviteCode>, code: string): (r: Option<InviteCode>)
    ensures r.Some? ==> exists i: nat :: FirstMatchAt(codes, code, i) && codes[i] == r.value
    ensures r.None? ==> forall i :: 0 <= i < |codes| ==> !Matches(codes[i], code)
    decreases |codes|
  {
    if |codes| == 0 then None
    else if Matches(codes[0], code) then
      assert FirstMatchAt(codes, code, 0);
      Some(codes[0])
    else
      var r := FindCode(codes[1..], code);
      if r.Some? then
        var i: nat :| FirstMatchAt(codes[1..], code, i) && codes[1..][i] == r.value;
        assert forall j :: 0 < j < i + 1 ==> codes[j] == codes[1..][j - 1];
        assert FirstMatchAt(codes, code, i + 1);
        r
      else
        r
  }

  /** `validateInviteCode`. */
  function ValidateInviteCode(code: string): Option<InviteCode> {
    FindCode(InviteCodesTable, code)
  }

  /** `isValidInviteCode`. */
  predicate IsValidInviteCode(code: string) {
    ValidateInviteCode(code) != None
  }

  /** A code is valid exactly when some table entry matches it; a valid code
      gives a table entry that matches it. */
  lemma ValidIffSomeEntryMatches(code: string)
    ensures IsValidInviteCode(code)
      <==> exists i :: 0 <= i < |InviteCodesTable| && Matches(InviteCodesTable[i], code)
    ensures ValidateInviteCode(code).Some? ==>
      ValidateInviteCode(code).value in InviteCodesTable && Matches(ValidateInviteCode(code).value, code)
  {
  }

  /** Two codes that agree letter by letter up to ASCII case give the same answer. */
  lemma CaseInsensitive(a: string, b: string)
    requires |a| == |b| && forall i :: 0 <= i < |a| ==> LowerChar(a[i]) == LowerChar(b[i])
    ensures ValidateInviteCode(a) == ValidateInviteCode(b)
  {
    assert ToLower(a) == ToLower(b);
  }

  /** In particular, an upper-cased code is as valid as the code itself. */
  lemma UpperCaseAccepted(code: string)
    ensures ValidateInviteCode(ToUpper(code)) == ValidateInviteCode(code)
  {
    LowerOfUpper(code);
  }

  /** The lower-cased table codes, as written. */
  lemma TableCodesLowerCase()
    ensures forall i :: 0 <= i < |InviteCodesTable| ==> ToLower(InviteCodesTable[i].code) == InviteCodesTable[i].code
  {
    forall i | 0 <= i < |InviteCodesTable|
      ensures ToLower(InviteCodesTable[i].code) == InviteCodesTable[i].code
    {
      var c := InviteCodesTable[i].code;
      assert forall j :: 0 <= j < |c| ==> !('A' <= c[j] <= 'Z');
    }
  }

  /** Distinct entries have distinct codes even after lower-casing, so at most
      one entry matches any code, and exactly one entry is a guest. */
  lemma TableCodesDistinct()
    ensures forall i, j :: 0 <= i < j < |InviteCodesTable| ==>
      ToLower(InviteCodesTable[i].code) != ToLower(InviteCodesTable[j].code)
    ensures forall i :: 0 <= i < |InviteCodesTable| && InviteCodesTable[i].role == Guest ==> i == 5
    ensures InviteCodesTable[5].code == "invitado-2024" && InviteCodesTable[5].role == Guest
  {
    TableCodesLowerCase();
  }

  /** An upper-case family code finds its entry. */
  lemma ExampleUpperCaseFamily()
    ensures ValidateInviteCode("PAPA-2024") == Some(InviteCode("papa-2024", "Pap\U{00E1}", Family))
  {
    assert ToLower("PAPA-2024") == "papa-2024";
    assert Matches(InviteCodesTable[0], "PAPA-2024");
  }

  /** The guest code finds the guest entry. */
  lemma ExampleGuest()
    ensures ValidateInviteCode("invitado-2024") == Some(InviteCode("invitado-2024", "Invitado", Guest))
  {
    TableCodesLowerCase();
    assert ToLower("invitado-2024") == "invitado-2024";
  }

  /** The empty code is not valid. */
  lemma ExampleEmpty()
    ensures ValidateInviteCode("") == None && !IsValidInviteCode("")
  {
    assert forall i :: 0 <= i < |InviteCodesTable| ==> |ToLower(InviteCodesTable[i].code)| > 0;
  }
}
