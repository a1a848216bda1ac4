/** The syndicate edit dialog (src/components/EditSyndicateDialog.tsx): the name and
    the leader's login can be changed; nothing else can. */
module EditSyndicate {
  import opened Wrappers
  import opened Types

  datatype SyndicateEditForm = SyndicateEditForm(name: string, leaderUsername: string, leaderPassword: string)

  /** The form the dialog opens with. */
  function FormOf(s: Syndicate): SyndicateEditForm {
    SyndicateEditForm(s.name, s.leaderCredentials.username, s.leaderCredentials.password)
  }

  /** The syndicate with the form's name and leader login written over it. */
  function Overlay(s: Syndicate, f: SyndicateEditForm): Syndicate {
    s.(name := f.name, leaderCredentials := Credentials(f.leaderUsername, f.leaderPassword))
  }

  predicate FormFilled(f: SyndicateEditForm) {
    f.name != "" && f.leaderUsername != "" && f.leaderPassword != ""
  }

  datatype EditError = MissingFields | NoSyndicate

  /** `handleSave`: every field is required; with no syndicate open nothing is saved. */
  function Save(form: SyndicateEditForm, syndicate: Option<Syndicate>): (r: Result<Syndicate, EditError>)
    ensures !FormFilled(form) ==> r == Failure(MissingFields)
    ensures FormFilled(form) && syndicate.None? ==> r == Failure(NoSyndicate)
    ensures r.Success? <==> FormFilled(form) && syndicate.Some?
    ensures r.Success? ==>
              FormOf(r.value) == form &&
              r.value.id == syndicate.value.id && r.value.leaderId == syndicate.value.leaderId &&
              r.value.createdAt == syndicate.value.createdAt &&
              r.value.memberCount == syndicate.value.memberCount
  {
    if !FormFilled(form) then Failure(MissingFields)
    else match syndicate
      case None => Failure(NoSyndicate)
      case Some(s) => Success(Overlay(s, form))
  }

  /** Saving the form the dialog opened with, untouched, gives back the syndicate. */
  lemma SaveUneditedIsIdentity(s: Syndicate)
    requires FormFilled(FormOf(s))
    ensures Save(FormOf(s), Some(s)) == Success(s)
  {
  }

  /** Reading back the fields of an overlaid syndicate gives the form that was written. */
  lemma FormOfOverlay(s: Syndicate, f: SyndicateEditForm)
    ensures FormOf(Overlay(s, f)) == f
  {
  }
}
