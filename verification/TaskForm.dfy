/** The company and contact fields of `apps/web/components/task-create-form.tsx`: each company
    change aborts the contact request before it, and late answers are dropped. */
module TaskForm {
  import opened JsText

  datatype Contact = Contact(id: string, name: string)

  datatype LoadState = Idle | Loading | Ready | Empty | Error

  /** How a contact request ends: sign-in expired, an answer whose body parsed, or a failure of the
      fetch or of the body.  `contacts` is None for a list that is missing or malformed. */
  datatype Response =
    | Unauthorized
    | Body(ok: bool, companyId: Option<string>, contacts: Option<seq<Contact>>)
    | Failure

  datatype Fields = Fields(
    companyId: string, contactId: string, contacts: seq<Contact>, loadState: LoadState)

  /** A request is named by the number of its controller; `latest` is the one the form holds.
      `asked` is the company each request was made for, `pending` those without a response,
      `responses` what the others were answered with. */
  datatype Requests = Requests(
    latest: Option<nat>, aborted: set<nat>, count: nat, asked: map<nat, string>,
    pending: set<nat>, responses: map<nat, Response>)

  datatype State = State(enabled: bool, mounted: bool, signIn: bool, form: Fields, net: Requests)

  function Initial(contactsEnabled: bool): State {
    State(contactsEnabled, true, false, Fields("", "", [], Idle),
          Requests(None, {}, 0, map[], {}, map[]))
  }

  datatype Step =
    | ChangeCompany(selected: string)
    | Respond(request: nat, response: Response)
    | ChooseContact(id: string)
    | Unmount

  /** An answer that `loadContacts` accepts for the company it was made for. */
  function Usable(response: Response, company: string): Option<seq<Contact>> {
    if response.Body? && response.ok && response.companyId == Some(company)
    then response.contacts else None
  }

  predicate Offered(contacts: seq<Contact>, id: string) {
    id == "" || exists c :: c in contacts && c.id == id
  }

  /** The contact select offers the empty choice and the contacts, and is enabled when ready. */
  predicate Enabled(s: State, step: Step) {
    match step
    case ChangeCompany(_) => s.mounted
    case Respond(request, _) => request in s.net.pending && request in s.net.asked
    case ChooseContact(id) =>
      s.mounted && s.form.companyId != "" && s.form.loadState == Ready
      && Offered(s.form.contacts, id)
    case Unmount => s.mounted
  }

  function AbortLatest(net: Requests): Requests {
    if net.latest.Some? then net.(aborted := net.aborted + {net.latest.value}) else net
  }

  function Asked(net: Requests, company: string): Requests {
    net.(latest := Some(net.count), count := net.count + 1, asked := net.asked[net.count := company],
         pending := net.pending + {net.count})
  }

  function Received(net: Requests, request: nat, response: Response): Requests {
    net.(pending := net.pending - {request}, responses := net.responses[request := response])
  }

  function Loaded(form: Fields, usable: Option<seq<Contact>>): Fields {
    match usable
    case None => form.(contacts := [], loadState := Error)
    case Some(contacts) =>
      form.(contacts := contacts, loadState := if contacts != [] then Ready else Empty)
  }

  function Next(s: State, step: Step): State {
    if !Enabled(s, step) then s
    else
      match step
      case ChangeCompany(selected) =>
        if selected == "" || !s.enabled
        then s.(form := Fields(selected, "", [], Idle), net := AbortLatest(s.net))
        else s.(form := Fields(selected, "", [], Loading),
                net := Asked(AbortLatest(s.net), selected))
      case Respond(request, response) =>
        var usable := Usable(response, s.net.asked[request]);
        var net := Received(s.net, request, response);
        if response.Unauthorized? then s.(signIn := true, net := net)
        else s.(net := net,
                form := if request in s.net.aborted then s.form else Loaded(s.form, usable))
      case ChooseContact(id) => s.(form := s.form.(contactId := id))
      case Unmount => s.(mounted := false, net := AbortLatest(s.net))
  }

  function Execute(s: State, steps: seq<Step>): State {
    if steps == [] then s else Next(Execute(s, steps[..|steps| - 1]), steps[|steps| - 1])
  }

  // ---- The component's state -----------------------------------------------------------------

  class Form {
    const contactsEnabled: bool
    var mounted: bool
    var companyId: string
    var contactId: string
    var contacts: seq<Contact>
    var contactLoadState: LoadState
    var contactRequest: Option<nat>
    var abortedControllers: set<nat>
    var signIn: bool
    var requests: nat
    ghost var asked: map<nat, string>
    ghost var pending: set<nat>
    ghost var responses: map<nat, Response>

    ghost function View(): State
      reads this
    {
      State(contactsEnabled, mounted, signIn,
            Fields(companyId, contactId, contacts, contactLoadState),
            Requests(contactRequest, abortedControllers, requests, asked, pending,
                     responses))
    }

    constructor (enabled: bool)
      ensures View() == Initial(enabled)
    {
      contactsEnabled, mounted, companyId, contactId, contacts := enabled, true, "", "", [];
      contactLoadState, contactRequest, abortedControllers := Idle, None, {};
      signIn, requests, asked, pending, responses := false, 0, map[], {}, map[];
    }

    method AbortLatestRequest()
      modifies `abortedControllers
      ensures View() == old(View()).(net := AbortLatest(old(View()).net))
    {
      if contactRequest.Some? {
        abortedControllers := abortedControllers + {contactRequest.value};
      }
    }

    method ChangeCompany(selected: string)
      requires mounted
      modifies this
      ensures View() == Next(old(View()), Step.ChangeCompany(selected))
    {
      AbortLatestRequest();
      companyId, contactId, contacts := selected, "", [];
      if selected == "" || !contactsEnabled {
        contactLoadState := Idle;
        return;
      }
      contactLoadState := Loading;
      BeginContactRequest(selected);
    }

    method BeginContactRequest(selectedCompanyId: string)
      modifies `contactRequest, `requests, `asked, `pending
      ensures View() == old(View()).(net := Asked(old(View()).net, selectedCompanyId))
    {
      var controller := requests;
      requests := requests + 1;
      contactRequest := Some(controller);
      asked, pending := asked[controller := selectedCompanyId], pending + {controller};
    }

    /** `loadContacts` from its last await on. */
    method LoadContacts(selectedCompanyId: string, controller: nat, response: Response)
      requires controller in pending && controller in asked
      requires asked[controller] == selectedCompanyId
      modifies this
      ensures View() == Next(old(View()), Respond(controller, response))
    {
      pending, responses := pending - {controller}, responses[controller := response];
      if response.Unauthorized? {
        signIn := true;
        return;
      }
      var thrown := response.Failure? || !response.ok
                    || response.companyId != Some(selectedCompanyId) || response.contacts.None?;
      if !thrown {
        if controller in abortedControllers { return; }
        contacts := response.contacts.value;
        contactLoadState := if |response.contacts.value| > 0 then Ready else Empty;
      } else {
        if controller in abortedControllers { return; }
        contacts := [];
        contactLoadState := Error;
      }
    }

    method ChooseContact(id: string)
      requires Enabled(View(), Step.ChooseContact(id))
      modifies `contactId
      ensures View() == Next(old(View()), Step.ChooseContact(id))
    {
      contactId := id;
    }

    method Unmount()
      requires mounted
      modifies this
      ensures View() == Next(old(View()), Step.Unmount)
    {
      mounted := false;
      AbortLatestRequest();
    }
  }

  // ---- Every run -----------------------------------------------------------------------------

  ghost predicate Tracked(net: Requests) {
    && (forall r :: r in net.pending ==> r in net.asked && r !in net.responses)
    && (forall r :: r in net.asked ==> r < net.count)
    && (forall r :: r in net.aborted || r in net.responses ==> r < net.count)
    && (net.latest.Some? ==> net.latest.value in net.asked)
    && (forall r :: r in net.asked && r !in net.aborted ==> net.latest == Some(r))
  }

  predicate Alive(net: Requests) {
    net.latest.Some? && net.latest.value !in net.aborted
  }

  /** What the form shows of a response to its live request. */
  predicate Shows(form: Fields, response: Response) {
    match response
    case Unauthorized => form.loadState == Loading && form.contacts == []
    case Body(ok, companyId, contacts) =>
      if ok && companyId == Some(form.companyId) && contacts.Some?
      then form.contacts == contacts.value
           && form.loadState == if contacts.value == [] then Empty else Ready
      else form.loadState == Error && form.contacts == []
    case Failure => form.loadState == Error && form.contacts == []
  }

  predicate AskedToSignIn(net: Requests) {
    exists r :: r in net.responses && net.responses[r].Unauthorized?
  }

  lemma SignInAsked(net: Requests, request: nat, response: Response)
    requires request !in net.responses
    ensures AskedToSignIn(Received(net, request, response)) <==>
            AskedToSignIn(net) || response.Unauthorized?
  {
    var after := Received(net, request, response);
    assert after.responses[request] == response;
    if r :| r in net.responses && net.responses[r].Unauthorized? {
      assert after.responses[r].Unauthorized?;
    }
  }

  /** Only the latest request can be alive, and then it was made for the selected company; what the
      form shows is what that request was answered with. */
  ghost predicate Matches(s: State) {
    var form, net := s.form, s.net;
    && (Alive(net) ==> s.mounted && s.enabled && net.latest.value in net.asked
                       && net.asked[net.latest.value] == form.companyId != "")
    && (s.mounted ==> (form.loadState != Idle <==> Alive(net)))
    && (form.loadState == Idle ==> form.companyId == "" || !s.enabled)
    && (form.loadState.Ready? <==> form.contacts != [])
    && (!form.loadState.Ready? ==> form.contactId == "")
    && (Alive(net) ==> net.latest.value in net.pending || net.latest.value in net.responses)
    && (Alive(net) && net.latest.value in net.pending ==> form.loadState.Loading?)
    && (Alive(net) && net.latest.value in net.responses ==>
          Shows(form, net.responses[net.latest.value]))
    && (s.signIn <==> AskedToSignIn(net))
    && Offered(form.contacts, form.contactId)
  }

  lemma AbortedTracked(net: Requests)
    requires Tracked(net)
    ensures Tracked(AbortLatest(net)) && !Alive(AbortLatest(net))
  {
  }

  lemma AskedTracked(net: Requests, company: string)
    requires Tracked(net) && !Alive(net)
    ensures Tracked(Asked(net, company))
  {
  }

  lemma ReceivedTracked(net: Requests, request: nat, response: Response)
    requires Tracked(net) && request in net.pending
    ensures Tracked(Received(net, request, response))
  {
  }

  lemma TrackedStep(s: State, step: Step)
    requires Tracked(s.net)
    ensures Tracked(Next(s, step).net)
  {
    if Enabled(s, step) {
      AbortedTracked(s.net);
      match step
      case ChangeCompany(selected) => AskedTracked(AbortLatest(s.net), selected);
      case Respond(request, response) => ReceivedTracked(s.net, request, response);
      case _ =>
    }
  }

  lemma ChangeMatches(s: State, selected: string)
    requires Tracked(s.net) && Matches(s)
    ensures Matches(Next(s, Step.ChangeCompany(selected)))
  {
  }

  lemma ResponseMatches(s: State, request: nat, response: Response)
    requires Tracked(s.net) && Matches(s)
    ensures Matches(Next(s, Respond(request, response)))
  {
    if Enabled(s, Respond(request, response)) { SignInAsked(s.net, request, response); }
  }

  lemma {:induction false} Reachable(contactsEnabled: bool, steps: seq<Step>)
    ensures Tracked(Execute(Initial(contactsEnabled), steps).net)
    ensures Matches(Execute(Initial(contactsEnabled), steps))
  {
    if steps != [] {
      Reachable(contactsEnabled, steps[..|steps| - 1]);
      var s := Execute(Initial(contactsEnabled), steps[..|steps| - 1]);
      TrackedStep(s, steps[|steps| - 1]);
      match steps[|steps| - 1]
      case ChangeCompany(selected) => ChangeMatches(s, selected);
      case Respond(request, response) => ResponseMatches(s, request, response);
      case ChooseContact(_) =>
      case Unmount =>
    }
  }

  /** Whatever the order of company changes and answers, contacts are on offer only if the latest
      request was made for the selected company and answered with that company and those contacts,
      and the chosen contact is none or one of them. */
  lemma NoStaleContacts(contactsEnabled: bool, steps: seq<Step>)
    ensures var s := Execute(Initial(contactsEnabled), steps);
            var form, net := s.form, s.net;
            && Offered(form.contacts, form.contactId)
            && (form.contacts != [] ==> form.loadState.Ready?)
            && (s.mounted && form.loadState.Ready? ==>
                  && form.companyId != "" && form.contacts != []
                  && net.latest.Some? && net.latest.value in net.asked
                  && net.latest.value in net.responses
                  && net.asked[net.latest.value] == form.companyId
                  && net.responses[net.latest.value] ==
                     Body(true, Some(form.companyId), Some(form.contacts)))
  {
    Reachable(contactsEnabled, steps);
  }

  /** Once the live request is answered, the form shows exactly that: the contacts of a body that is
      for the selected company and well formed, and an error without contacts for any other body or
      a failure.  A response that asks to sign in leaves it loading and is what sends the user to
      sign in. */
  lemma AnswerDecides(contactsEnabled: bool, steps: seq<Step>)
    ensures var s := Execute(Initial(contactsEnabled), steps);
            var form, net := s.form, s.net;
            && (s.signIn <==> AskedToSignIn(net))
            && (s.mounted && contactsEnabled && form.companyId != "" ==>
                  && net.latest.Some?
                  && (net.latest.value in net.pending ==>
                        form.loadState == Loading && form.contacts == [])
                  && (net.latest.value !in net.pending ==>
                        net.latest.value in net.responses
                        && Shows(form, net.responses[net.latest.value])))
  {
    Reachable(contactsEnabled, steps);
    EnabledStays(contactsEnabled, steps);
  }

  lemma {:induction false} EnabledStays(contactsEnabled: bool, steps: seq<Step>)
    ensures Execute(Initial(contactsEnabled), steps).enabled == contactsEnabled
  {
    if steps != [] {
      EnabledStays(contactsEnabled, steps[..|steps| - 1]);
    }
  }

  /** An answer to any request but the latest, or one that comes once no company is selected or the
      form is gone, changes nothing in the form. */
  lemma LateAnswersAreDropped(contactsEnabled: bool, steps: seq<Step>, request: nat,
                              response: Response)
    requires var s := Execute(Initial(contactsEnabled), steps);
             s.net.latest != Some(request) || s.form.companyId == "" || !s.mounted
    ensures var s := Execute(Initial(contactsEnabled), steps);
            Next(s, Respond(request, response)).form == s.form
  {
    Reachable(contactsEnabled, steps);
  }

  /** While a company is selected, the region is loading exactly until the latest request is
      answered; only an expired sign-in leaves it loading. */
  lemma LoadingUntilAnswered(contactsEnabled: bool, steps: seq<Step>)
    requires var s := Execute(Initial(contactsEnabled), steps);
             s.mounted && s.form.companyId != "" && s.enabled && !s.signIn
    ensures var s := Execute(Initial(contactsEnabled), steps);
            && s.net.latest.Some?
            && (s.form.loadState.Loading? <==> s.net.latest.value in s.net.pending)
  {
    Reachable(contactsEnabled, steps);
  }

  /** The company selected last. */
  function LastSelected(steps: seq<Step>): string {
    if steps == [] then ""
    else
      var last := steps[|steps| - 1];
      if last.ChangeCompany? then last.selected else LastSelected(steps[..|steps| - 1])
  }

  /** The form is about the company selected last, whatever is answered meanwhile. */
  lemma {:induction false} CompanyIsLastSelected(contactsEnabled: bool, steps: seq<Step>)
    requires Execute(Initial(contactsEnabled), steps).mounted
    ensures Execute(Initial(contactsEnabled), steps).form.companyId == LastSelected(steps)
  {
    if steps != [] {
      CompanyIsLastSelected(contactsEnabled, steps[..|steps| - 1]);
    }
  }

  /** A contact chosen stays chosen until another choice or another company. */
  lemma {:induction false} ChoiceStays(contactsEnabled: bool, before: seq<Step>, id: string,
                                       after: seq<Step>)
    requires Enabled(Execute(Initial(contactsEnabled), before), Step.ChooseContact(id))
    requires forall i :: 0 <= i < |after| ==> after[i].Respond? || after[i].Unmount?
    ensures var s := Execute(Initial(contactsEnabled), before + [Step.ChooseContact(id)] + after);
            var chosen := Execute(Initial(contactsEnabled), before).form.(contactId := id);
            s.form == chosen
  {
    var steps := before + [Step.ChooseContact(id)] + after;
    if after == [] {
      assert steps[..|steps| - 1] == before;
      assert steps[|steps| - 1] == Step.ChooseContact(id);
    } else {
      var n := |steps| - 1;
      ChoiceStays(contactsEnabled, before, id, after[..|after| - 1]);
      assert steps[..n] == before + [Step.ChooseContact(id)] + after[..|after| - 1];
      assert steps[n] == after[|after| - 1];
      Reachable(contactsEnabled, steps[..n]);
      ReadyIsAnswered(contactsEnabled, steps[..n]);
    }
  }

  /** A form that is ready is not waiting for its latest request. */
  lemma ReadyIsAnswered(contactsEnabled: bool, steps: seq<Step>)
    ensures var s := Execute(Initial(contactsEnabled), steps);
            s.form.loadState.Ready? ==>
              forall r :: r in s.net.pending ==> r in s.net.aborted
  {
    Reachable(contactsEnabled, steps);
  }
}
