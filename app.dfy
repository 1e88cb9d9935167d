/**
 * The application's bookkeeping: the event and credential logs, dispatch of
 * one lure message, campaign creation and launch, the tracking callbacks,
 * the login form and the report page's ordering. The four data files are
 * fields of one `App` object; the web layer, the mail server, the clock and
 * the token generator are outside it, and what they return comes in as
 * parameters.
 */
module PhishingApp {
  import opened Wrappers
  import opened Text
  import opened Ordering
  import opened Recipients
  import opened CsvLog
  import opened Correlation
  import opened Campaigns

  const EventFields: seq<string> := ["timestamp", "event", "hash_id", "email", "campaign", "details"]
  const CredentialFields: seq<string> := ["timestamp", "hash_id", "email", "campaign", "username", "password"]

  const EmailSent := "email_sent"

  /** Where the login form sends the browser. */
  const LoginRedirect := "https://slack.com/logine"

  /** What the mail server does with one message: accepts it, or fails with a message. */
  datatype SmtpResult = Accepted | Failed(error: string)

  /** What the outside world supplies to one send: the token `create_hash` returns,
      the mail server's answer, and the time (for `created_at` and the log row). */
  datatype Attempt = Attempt(token: string, smtp: SmtpResult, at: string)

  /** The three tracking callbacks and the event each logs. */
  datatype Stage = Opened | Clicked | Downloaded

  function StageEvent(stage: Stage): string {
    match stage
    case Opened => "email_opened"
    case Clicked => "link_clicked"
    case Downloaded => "attachment_downloaded"
  }

  /** The row `log_event` writes; a missing token, email, campaign or detail becomes "". */
  function EventRow(at: string, eventType: string, hashId: Option<string>, email: Option<string>,
                    campaign: Option<string>, details: Option<string>): map<string, string>
  {
    map["timestamp" := at, "event" := eventType, "hash_id" := OrEmpty(hashId),
        "email" := OrEmpty(email), "campaign" := OrEmpty(campaign), "details" := OrEmpty(details)]
  }

  /** An event row has exactly the event log's columns, each holding its argument
      or "" for an absent one. */
  lemma EventRowFields(at: string, eventType: string, hashId: Option<string>, email: Option<string>,
                       campaign: Option<string>, details: Option<string>)
    ensures var row := EventRow(at, eventType, hashId, email, campaign, details);
      && row.Keys == FieldSet(EventFields)
      && row["event"] == eventType && row["timestamp"] == at
      && row["hash_id"] == OrEmpty(hashId) && row["email"] == OrEmpty(email)
      && row["campaign"] == OrEmpty(campaign) && row["details"] == OrEmpty(details)
  {
  }

  /** The row `log_credentials` writes; a missing token, email or campaign becomes "". */
  function CredentialRow(at: string, hashId: Option<string>, email: Option<string>,
                         campaign: Option<string>, username: string, password: string): map<string, string>
  {
    map["timestamp" := at, "hash_id" := OrEmpty(hashId), "email" := OrEmpty(email),
        "campaign" := OrEmpty(campaign), "username" := username, "password" := password]
  }

  /** A credential row has exactly the credential log's columns; username and password
      are kept verbatim. */
  lemma CredentialRowFields(at: string, hashId: Option<string>, email: Option<string>,
                            campaign: Option<string>, username: string, password: string)
    ensures var row := CredentialRow(at, hashId, email, campaign, username, password);
      && row.Keys == FieldSet(CredentialFields)
      && row["timestamp"] == at && row["hash_id"] == OrEmpty(hashId)
      && row["email"] == OrEmpty(email) && row["campaign"] == OrEmpty(campaign)
      && row["username"] == username && row["password"] == password
  {
  }

  /** The `email_sent` row of a send that the mail server accepted. */
  function SentRow(email: string, campaign: Option<string>, a: Attempt): map<string, string> {
    EventRow(a.at, EmailSent, Some(a.token), Some(email), campaign, None)
  }

  /** How many of the sends to the first n recipients the mail server accepted. */
  function Delivered(recipients: seq<string>, n: nat, attempts: nat -> Attempt): nat
    requires n <= |recipients|
  {
    if n == 0 then 0
    else Delivered(recipients, n - 1, attempts) + (if attempts(n - 1).smtp.Accepted? then 1 else 0)
  }

  /** The `errors` list after the first n recipients: "<email>: <error>" for each
      refused send, in order. */
  function FailureReport(recipients: seq<string>, n: nat, attempts: nat -> Attempt): seq<string>
    requires n <= |recipients|
  {
    if n == 0 then []
    else
      var a := attempts(n - 1);
      FailureReport(recipients, n - 1, attempts)
        + (if a.smtp.Failed? then [recipients[n - 1] + ": " + a.smtp.error] else [])
  }

  /** The correlation map after registering the tokens of the first n recipients, in order. */
  function RegisterAll(m: map<string, HashEntry>, recipients: seq<string>, n: nat, campaign: Option<string>,
                       attempts: nat -> Attempt): map<string, HashEntry>
    requires n <= |recipients|
  {
    if n == 0 then m
    else
      var a := attempts(n - 1);
      RegisterAll(m, recipients, n - 1, campaign, attempts)[a.token := HashEntry(recipients[n - 1], campaign, a.at)]
  }

  /** The `email_sent` records the sends to the first n recipients add: one per
      accepted send, in order. */
  function SentRows(recipients: seq<string>, n: nat, campaign: Option<string>, attempts: nat -> Attempt): seq<map<string, string>>
    requires n <= |recipients|
  {
    if n == 0 then []
    else
      var a := attempts(n - 1);
      SentRows(recipients, n - 1, campaign, attempts)
        + (if a.smtp.Accepted? then [SentRow(recipients[n - 1], campaign, a)] else [])
  }

  /** The tokens of the first n attempts. */
  function Tokens(n: nat, attempts: nat -> Attempt): set<string> {
    set k | 0 <= k < n :: attempts(k).token
  }

  /** Every recipient is either counted as a success or reported as a failure, never both. */
  lemma {:induction false} BatchAccounting(recipients: seq<string>, n: nat, attempts: nat -> Attempt)
    requires n <= |recipients|
    ensures Delivered(recipients, n, attempts) + |FailureReport(recipients, n, attempts)| == n
  {
    if n > 0 {
      BatchAccounting(recipients, n - 1, attempts);
    }
  }

  /** `email_sent` is logged once per success and never for a failure. */
  lemma {:induction false} OneSentRowPerSuccess(recipients: seq<string>, n: nat, campaign: Option<string>,
                                                attempts: nat -> Attempt)
    requires n <= |recipients|
    ensures |SentRows(recipients, n, campaign, attempts)| == Delivered(recipients, n, attempts)
  {
    if n > 0 {
      OneSentRowPerSuccess(recipients, n - 1, campaign, attempts);
    }
  }

  /** Registering adds exactly the tokens of the sends and removes nothing. */
  lemma {:induction false} RegisterAllKeys(m: map<string, HashEntry>, recipients: seq<string>, n: nat,
                                           campaign: Option<string>, attempts: nat -> Attempt)
    requires n <= |recipients|
    ensures RegisterAll(m, recipients, n, campaign, attempts).Keys == m.Keys + Tokens(n, attempts)
  {
    if n > 0 {
      RegisterAllKeys(m, recipients, n - 1, campaign, attempts);
      assert Tokens(n, attempts) == Tokens(n - 1, attempts) + {attempts(n - 1).token};
    }
  }

  /**
   * With distinct tokens, the sends to the first n recipients leave each of those
   * recipients' tokens correlated to that recipient and the campaign. (The tokens
   * come from `uuid4`; distinctness is what the code relies on: a repeated token
   * would be overwritten by the later recipient.)
   */
  lemma {:induction false} RegisterAllCorrelates(m: map<string, HashEntry>, recipients: seq<string>, n: nat,
                                                 campaign: Option<string>, attempts: nat -> Attempt)
    requires n <= |recipients|
    requires forall j, k :: 0 <= j < k < n ==> attempts(j).token != attempts(k).token
    ensures var r := RegisterAll(m, recipients, n, campaign, attempts);
      forall k :: 0 <= k < n ==> attempts(k).token in r && r[attempts(k).token] == HashEntry(recipients[k], campaign, attempts(k).at)
  {
    if n > 0 {
      RegisterAllCorrelates(m, recipients, n - 1, campaign, attempts);
    }
  }

  /** A token that none of the sends used keeps its entry. */
  lemma {:induction false} RegisterAllKeepsOthers(m: map<string, HashEntry>, recipients: seq<string>, n: nat,
                                                  campaign: Option<string>, attempts: nat -> Attempt, t: string)
    requires n <= |recipients|
    requires t in m && t !in Tokens(n, attempts)
    ensures t in RegisterAll(m, recipients, n, campaign, attempts)
    ensures RegisterAll(m, recipients, n, campaign, attempts)[t] == m[t]
  {
    if n > 0 {
      assert attempts(n - 1).token in Tokens(n, attempts);
      assert Tokens(n - 1, attempts) <= Tokens(n, attempts);
      RegisterAllKeepsOthers(m, recipients, n - 1, campaign, attempts, t);
    }
  }

  /** The answer of one send: success and the token, or failure and the mail
      server's message. */
  datatype SendOutcome = SendOutcome(success: bool, info: string)

  /** The outcome of the campaign creation form. */
  datatype CreateResult = NameMissing | RecipientsMissing | Created(campaign: Campaign)

  /** The outcome of a launch. */
  datatype LaunchResult = CampaignNotFound | NoRecipients | Launched(successCount: nat, errors: seq<string>)

  /** The sort key of the report page: a record's timestamp, "" if it has none. */
  function Timestamp(record: map<string, string>): string {
    if "timestamp" in record then record["timestamp"] else ""
  }

  class App {
    const hashes: HashMapFile
    const events: CsvFile
    const credentials: CsvFile
    const campaigns: CampaignsFile

    ghost predicate Valid()
      reads events, credentials
    {
      && events != credentials
      && events.fieldnames == EventFields && events.Valid()
      && credentials.fieldnames == CredentialFields && credentials.Valid()
    }

    /** A first start: no data file exists yet. */
    constructor ()
      ensures Valid()
      ensures fresh(hashes) && fresh(events) && fresh(credentials) && fresh(campaigns)
      ensures hashes.mapping == map[] && events.lines == [] && credentials.lines == [] && campaigns.stored == []
    {
      hashes := new HashMapFile();
      events := new CsvFile(EventFields);
      credentials := new CsvFile(CredentialFields);
      campaigns := new CampaignsFile();
    }

    /** `log_event`: appends one row to the event log; read back, the log has exactly
        this record more, at the end. */
    method LogEvent(eventType: string, hashId: Option<string>, email: Option<string>,
                    campaign: Option<string>, details: Option<string>, at: string)
      requires Valid()
      modifies events
      ensures Valid()
      ensures var row := EventRow(at, eventType, hashId, email, campaign, details);
        && events.lines == old(events.lines) + (if old(events.lines) == [] then [EventFields] else []) + [RowCells(EventFields, row)]
        && events.ReadRecords() == old(events.ReadRecords()) + [row]
    {
      var row := EventRow(at, eventType, hashId, email, campaign, details);
      EventRowFields(at, eventType, hashId, email, campaign, details);
      CompletedFullRow(EventFields, row);
      events.AppendDictRow(row);
    }

    /** `log_credentials`: appends one row to the credential log; read back, the log has
        exactly this record more, at the end, with username and password as given. */
    method LogCredentials(hashId: Option<string>, email: Option<string>, campaign: Option<string>,
                          username: string, password: string, at: string)
      requires Valid()
      modifies credentials
      ensures Valid()
      ensures var row := CredentialRow(at, hashId, email, campaign, username, password);
        && credentials.lines == old(credentials.lines) + (if old(credentials.lines) == [] then [CredentialFields] else []) + [RowCells(CredentialFields, row)]
        && credentials.ReadRecords() == old(credentials.ReadRecords()) + [row]
    {
      var row := CredentialRow(at, hashId, email, campaign, username, password);
      CredentialRowFields(at, hashId, email, campaign, username, password);
      CompletedFullRow(CredentialFields, row);
      credentials.AppendDictRow(row);
    }

    /**
     * `send_phishing_email`: the token is registered before the mail server is
     * asked, so it stays registered when the send fails; `email_sent` is logged
     * only when the server accepts. Answers the token on success, the server's
     * message on failure.
     */
    method SendPhishingEmail(toEmail: string, campaignName: Option<string>, attempt: Attempt)
      returns (outcome: SendOutcome)
      requires Valid()
      modifies hashes, events
      ensures Valid()
      ensures hashes.mapping == old(hashes.mapping)[attempt.token := HashEntry(toEmail, campaignName, attempt.at)]
      ensures outcome.success <==> attempt.smtp.Accepted?
      ensures outcome.info == if attempt.smtp.Accepted? then attempt.token else attempt.smtp.error
      ensures attempt.smtp.Failed? ==> events.lines == old(events.lines)
      ensures events.ReadRecords() == old(events.ReadRecords())
        + (if attempt.smtp.Accepted? then [SentRow(toEmail, campaignName, attempt)] else [])
    {
      var hashId := attempt.token;
      hashes.RegisterHash(hashId, toEmail, campaignName, attempt.at);
      match attempt.smtp
      case Failed(error) =>
        return SendOutcome(false, error);
      case Accepted =>
        LogEvent(EmailSent, Some(hashId), Some(toEmail), campaignName, None, attempt.at);
        return SendOutcome(true, hashId);
    }

    /**
     * The creation branch of `campaigns_view`: a blank name or a recipient field that
     * parses to nothing is refused and nothing is saved; otherwise the loaded
     * (sorted) campaigns plus exactly one new campaign are saved, with the parsed
     * recipients, no send yet and a zero counter.
     */
    method CreateCampaign(formName: string, formDescription: string, formRecipients: string,
                          newId: string, now: string) returns (result: CreateResult)
      modifies campaigns
      ensures Strip(formName) == "" ==> result == NameMissing && campaigns.stored == old(campaigns.stored)
      ensures Strip(formName) != "" && ParsedRecipients(formRecipients) == [] ==>
        result == RecipientsMissing && campaigns.stored == old(campaigns.stored)
      ensures result.Created? ==>
        && result.campaign == Campaign(newId, Strip(formName), Strip(formDescription),
                                       ParsedRecipients(formRecipients), now, None, 0)
        && campaigns.stored == old(campaigns.LoadCampaigns()) + [result.campaign]
      ensures Strip(formName) != "" && ParsedRecipients(formRecipients) != [] ==> result.Created?
    {
      var loaded := campaigns.LoadCampaigns();
      var name := Strip(formName);
      var description := Strip(formDescription);
      var recipients := ParseRecipients(formRecipients);
      if name == "" {
        result := NameMissing;
      } else if recipients == [] {
        result := RecipientsMissing;
      } else {
        var campaign := Campaign(newId, name, description, recipients, now, None, 0);
        campaigns.SaveCampaigns(loaded + [campaign]);
        result := Created(campaign);
      }
    }

    /** One turn of the launch loop, for recipient i: send, then count the success or
        report the failure as "<email>: <error>"; the tallies, the correlation map and
        the event log go from covering the first i recipients to the first i + 1. */
    method SendNext(recipients: seq<string>, i: nat, campaignName: Option<string>, attempts: nat -> Attempt,
                    successCount: nat, errors: seq<string>, ghost registered: map<string, HashEntry>,
                    ghost logged: seq<map<string, string>>)
      returns (successCount': nat, errors': seq<string>)
      requires Valid() && i < |recipients|
      requires successCount == Delivered(recipients, i, attempts)
      requires errors == FailureReport(recipients, i, attempts)
      requires hashes.mapping == RegisterAll(registered, recipients, i, campaignName, attempts)
      requires events.ReadRecords() == logged + SentRows(recipients, i, campaignName, attempts)
      modifies hashes, events
      ensures Valid()
      ensures successCount' == Delivered(recipients, i + 1, attempts)
      ensures errors' == FailureReport(recipients, i + 1, attempts)
      ensures hashes.mapping == RegisterAll(registered, recipients, i + 1, campaignName, attempts)
      ensures events.ReadRecords() == logged + SentRows(recipients, i + 1, campaignName, attempts)
    {
      var sent := SendPhishingEmail(recipients[i], campaignName, attempts(i));
      if sent.success {
        successCount', errors' := successCount + 1, errors;
        assert events.ReadRecords() == logged
          + (SentRows(recipients, i, campaignName, attempts) + [SentRow(recipients[i], campaignName, attempts(i))]);
      } else {
        successCount', errors' := successCount, errors + [recipients[i] + ": " + sent.info];
      }
    }

    /** The send loop of a launch: one attempt per recipient, in order, a failure not
        stopping the batch; successes are counted and failures reported. */
    method SendBatch(recipients: seq<string>, campaignName: Option<string>, attempts: nat -> Attempt)
      returns (successCount: nat, errors: seq<string>)
      requires Valid()
      modifies hashes, events
      ensures Valid()
      ensures successCount == Delivered(recipients, |recipients|, attempts)
      ensures errors == FailureReport(recipients, |recipients|, attempts)
      ensures hashes.mapping == RegisterAll(old(hashes.mapping), recipients, |recipients|, campaignName, attempts)
      ensures events.ReadRecords() == old(events.ReadRecords()) + SentRows(recipients, |recipients|, campaignName, attempts)
    {
      successCount := 0;
      errors := [];
      ghost var registered := hashes.mapping;
      ghost var logged := events.ReadRecords();
      for i := 0 to |recipients|
        invariant Valid()
        invariant successCount == Delivered(recipients, i, attempts)
        invariant errors == FailureReport(recipients, i, attempts)
        invariant hashes.mapping == RegisterAll(registered, recipients, i, campaignName, attempts)
        invariant events.ReadRecords() == logged + SentRows(recipients, i, campaignName, attempts)
      {
        successCount, errors := SendNext(recipients, i, campaignName, attempts, successCount, errors, registered, logged);
      }
    }

    /**
     * `launch_campaign`: finds the campaign among the loaded ones; an unknown id or
     * an empty recipient list changes nothing. Otherwise every recipient is sent
     * to, in order (one attempt each, a failure does not stop the batch), the
     * successes are counted and the failures collected, and the loaded list is
     * saved with that one campaign's counter raised by the success count and its
     * `last_sent_at` set.
     */
    method LaunchCampaign(campaignId: string, attempts: nat -> Attempt, now: string)
      returns (result: LaunchResult)
      requires Valid()
      modifies hashes, events, campaigns
      ensures Valid()
      ensures var loaded := old(campaigns.LoadCampaigns());
        var found := FindCampaign(loaded, campaignId);
        && (found.None? ==> result == CampaignNotFound)
        && (found.Some? && loaded[found.value].recipients == [] ==> result == NoRecipients)
        && (found.Some? && loaded[found.value].recipients != [] ==> result.Launched?)
        && (!result.Launched? ==>
              && campaigns.stored == old(campaigns.stored)
              && hashes.mapping == old(hashes.mapping)
              && events.lines == old(events.lines))
        && (result.Launched? ==>
              found.Some? &&
              var i := found.value;
              var campaign := loaded[i];
              var n := |campaign.recipients|;
              && result.successCount == Delivered(campaign.recipients, n, attempts)
              && result.errors == FailureReport(campaign.recipients, n, attempts)
              && hashes.mapping == RegisterAll(old(hashes.mapping), campaign.recipients, n, Some(campaign.name), attempts)
              && events.ReadRecords() == old(events.ReadRecords()) + SentRows(campaign.recipients, n, Some(campaign.name), attempts)
              && campaigns.stored == loaded[i := AfterLaunch(campaign, result.successCount, now)])
    {
      var loaded := campaigns.LoadCampaigns();
      var found := FindCampaign(loaded, campaignId);
      if found.None? {
        return CampaignNotFound;
      }
      var campaign := loaded[found.value];
      var recipients := campaign.recipients;
      if recipients == [] {
        return NoRecipients;
      }

      var successCount, errors := SendBatch(recipients, Some(campaign.name), attempts);
      var updated := MarkLaunched(loaded, campaignId, successCount, now);
      campaigns.SaveCampaigns(updated);
      result := Launched(successCount, errors);
    }

    /**
     * The tracking callbacks (`/phisingpixel`, `/landing`, `/download`): look the
     * token up and log the stage's event with the email and campaign found, or
     * with "" for both when the token is missing or unknown. The correlation
     * file is only read.
     */
    method RecordEngagement(stage: Stage, hashId: Option<string>, at: string)
      requires Valid()
      modifies events
      ensures Valid()
      ensures var info := hashes.GetHashInfo(hashId);
        events.ReadRecords() == old(events.ReadRecords()) + [EventRow(at, StageEvent(stage), hashId, info.email, info.campaign, None)]
      ensures Falsy(hashId) || hashId.value !in hashes.mapping ==>
        var row := events.ReadRecords()[|events.ReadRecords()| - 1];
        row["email"] == "" && row["campaign"] == ""
    {
      var info := hashes.GetHashInfo(hashId);
      EventRowFields(at, StageEvent(stage), hashId, info.email, info.campaign, None);
      LogEvent(StageEvent(stage), hashId, info.email, info.campaign, None, at);
    }

    /**
     * The `/login` form: it looks the token up and redirects to the real sign-in
     * page. It returns before the lines that would log the credentials and a
     * `credentials_submitted` event, so a submission writes nothing.
     */
    method Login(hashId: Option<string>, username: string, password: string) returns (location: string)
      ensures location == LoginRedirect
      ensures credentials.lines == old(credentials.lines) && events.lines == old(events.lines)
      ensures hashes.mapping == old(hashes.mapping)
    {
      var info := hashes.GetHashInfo(hashId);
      location := LoginRedirect;
    }

    /**
     * `visualize`: both logs, newest timestamp first, records with equal timestamps
     * in the order they were logged; nothing is added or lost.
     */
    function Visualize(): (pages: (seq<map<string, string>>, seq<map<string, string>>))
      requires Valid()
      reads events, credentials
      ensures multiset(pages.0) == multiset(events.ReadRecords())
      ensures multiset(pages.1) == multiset(credentials.ReadRecords())
      ensures SortedDesc(pages.0, Timestamp) && SortedDesc(pages.1, Timestamp)
      ensures forall t :: WithKey(pages.0, Timestamp, t) == WithKey(events.ReadRecords(), Timestamp, t)
      ensures forall t :: WithKey(pages.1, Timestamp, t) == WithKey(credentials.ReadRecords(), Timestamp, t)
    {
      var ev := events.ReadRecords();
      var cr := credentials.ReadRecords();
      SortDescPermutation(ev, Timestamp);
      SortDescPermutation(cr, Timestamp);
      SortDescSorted(ev, Timestamp);
      SortDescSorted(cr, Timestamp);
      forall t ensures WithKey(SortDesc(ev, Timestamp), Timestamp, t) == WithKey(ev, Timestamp, t) {
        SortDescStable(ev, Timestamp, t);
      }
      forall t ensures WithKey(SortDesc(cr, Timestamp), Timestamp, t) == WithKey(cr, Timestamp, t) {
        SortDescStable(cr, Timestamp, t);
      }
      (SortDesc(ev, Timestamp), SortDesc(cr, Timestamp))
    }
  }
}
