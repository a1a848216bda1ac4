/** The member edit dialog (src/components/EditMemberDialog.tsx), and the shape of
    the member form that the registration screen shares with it. */
module EditMember {
  import opened Wrappers
  import opened Types

  /** The twelve editable fields of a member. */
  datatype MemberForm = MemberForm(
    name: string,
    idNumber: string,
    phoneNumber: string,
    maritalStatus: MaritalStatus,
    administrativeLocation: string,
    disabilityStatus: bool,
    educationLevel: EducationLevel,
    institutionName: string,
    professional: string,
    contract: bool,
    yearJobStart: int,
    socialSecurityId: string)

  /** The form the dialog opens with: the member's editable fields. */
  function FormOf(m: Member): MemberForm {
    MemberForm(m.name, m.idNumber, m.phoneNumber, m.maritalStatus, m.administrativeLocation,
               m.disabilityStatus, m.educationLevel, m.institutionName, m.professional,
               m.contract, m.yearJobStart, m.socialSecurityId)
  }

  /** `{ ...member, ...formData }`: the form's fields written over the member. */
  function Overlay(m: Member, f: MemberForm): Member {
    m.(name := f.name, idNumber := f.idNumber, phoneNumber := f.phoneNumber,
       maritalStatus := f.maritalStatus, administrativeLocation := f.administrativeLocation,
       disabilityStatus := f.disabilityStatus, educationLevel := f.educationLevel,
       institutionName := f.institutionName, professional := f.professional,
       contract := f.contract, yearJobStart := f.yearJobStart, socialSecurityId := f.socialSecurityId)
  }

  /** Name, ID number and phone number are required. */
  predicate RequiredFilled(f: MemberForm) {
    f.name != "" && f.idNumber != "" && f.phoneNumber != ""
  }

  datatype EditError = MissingRequired | NoMember

  /** `handleSave`: refused when a required field is empty; with no member open
      nothing is saved; otherwise the member with the form written over it. */
  function Save(form: MemberForm, member: Option<Member>): (r: Result<Member, EditError>)
    ensures !RequiredFilled(form) ==> r == Failure(MissingRequired)
    ensures RequiredFilled(form) && member.None? ==> r == Failure(NoMember)
    ensures r.Success? <==> RequiredFilled(form) && member.Some?
    ensures r.Success? ==>
              FormOf(r.value) == form &&
              r.value.id == member.value.id && r.value.syndicateId == member.value.syndicateId &&
              r.value.registeredBy == member.value.registeredBy &&
              r.value.registeredAt == member.value.registeredAt &&
              r.value.credentials == member.value.credentials
  {
    if !RequiredFilled(form) then Failure(MissingRequired)
    else match member
      case None => Failure(NoMember)
      case Some(m) => Success(Overlay(m, form))
  }

  /** Reading back the fields of an overlaid member gives the form that was written. */
  lemma FormOfOverlay(m: Member, f: MemberForm)
    ensures FormOf(Overlay(m, f)) == f
  {
  }

  /** Writing a member's own fields over it changes nothing. */
  lemma OverlayFormOf(m: Member)
    ensures Overlay(m, FormOf(m)) == m
  {
  }

  /** Saving the form the dialog opened with, untouched, gives back the member. */
  lemma SaveUneditedIsIdentity(m: Member)
    requires RequiredFilled(FormOf(m))
    ensures Save(FormOf(m), Some(m)) == Success(m)
  {
    OverlayFormOf(m);
  }

  /** Overlaying two forms in turn keeps only the second. */
  lemma OverlayLastWins(m: Member, f1: MemberForm, f2: MemberForm)
    ensures Overlay(Overlay(m, f1), f2) == Overlay(m, f2)
  {
  }
}
