/** The Alertmanager webhook (internal/api/handlers_alertmanager.go): a firing alert opens an incident under its key, a
    resolved one closes it, and a delivery reports how many it opened, closed and ignored. */
module AlertReceiver {
  import opened IncidentTable
  import opened Options

  /** An alert's status, fingerprint and `alertname` label; an absent one is empty. */
  datatype Alert = Alert(status: string, fingerprint: string, alertname: string)

  function Key(a: Alert): string {
    if a.fingerprint != "" then a.fingerprint else a.alertname
  }

  /** Lower case, as far as it decides equality with an ASCII word: two letters outside ASCII fold into it. */
  function LowerChar(c: char): char {
    if 'A' <= c <= 'Z' then (c as int + 32) as char else
    if c == '\U{0130}' then 'i' else
    if c == '\U{212A}' then 'k' else c
  }

  function Lower(s: string): string {
    seq(|s|, i requires 0 <= i < |s| => LowerChar(s[i]))
  }

  datatype Effect = Open | Close | Skip

  function EffectOf(a: Alert): Effect {
    var status := Lower(a.status);
    if Key(a) == "" then Skip else
    if status == "resolved" then Close else
    if status == "firing" || status == "" then Open else Skip
  }

  /** A word in any mix of cases, the dotted capital I included. */
  predicate CaseOf(s: string, word: string) {
    |s| == |word| && forall i :: 0 <= i < |s| ==>
      s[i] == word[i] || ('a' <= word[i] <= 'z' && s[i] as int == word[i] as int - 32) || (word[i] == 'i' && s[i] == '\U{0130}')
  }

  lemma LowerCase(s: string, word: string)
    requires forall i :: 0 <= i < |word| ==> 'a' <= word[i] <= 'z' && word[i] != 'k'
    ensures Lower(s) == word <==> CaseOf(s, word)
  {
    if CaseOf(s, word) {
      assert forall i :: 0 <= i < |s| ==> LowerChar(s[i]) == word[i];
      assert Lower(s) == word;
    }
    if Lower(s) == word {
      forall i | 0 <= i < |s|
        ensures LowerChar(s[i]) == word[i]
      {
        assert Lower(s)[i] == word[i];
      }
    }
  }

  /** An alert with a key closes exactly on "resolved", opens exactly on "firing" or no status, in any mix of cases; one with
      neither fingerprint nor alertname does nothing. */
  lemma EffectByStatus(a: Alert)
    ensures EffectOf(a) == Close <==> (a.fingerprint != "" || a.alertname != "") && CaseOf(a.status, "resolved")
    ensures EffectOf(a) == Open <==>
      (a.fingerprint != "" || a.alertname != "") && (CaseOf(a.status, "firing") || a.status == "")
  {
    hide Lower;
    hide CaseOf;
    LowerCase(a.status, "resolved");
    LowerCase(a.status, "firing");
    LowerCase(a.status, "");
    EmptyCase(a.status);
  }

  lemma EmptyCase(s: string)
    ensures CaseOf(s, "") <==> s == ""
  {}

  /** How the store calls for one alert go; a failed write may have taken effect all the same. */
  datatype Fault = Works | FindFails | WriteFails | CommitUnknown

  datatype Verdict = Opened | Resolved | Ignored | Failed

  /** One alert against the rows. */
  function Handled(rows: seq<Row>, project: string, a: Alert, fault: Fault, who: int): (seq<Row>, Verdict) {
    if EffectOf(a).Skip? then (rows, Ignored) else
    if fault.FindFails? then (rows, Failed) else
    var found := FindOpen(rows, project, Key(a));
    if found.Some? == EffectOf(a).Open? then (rows, Ignored) else
    if fault.WriteFails? then (rows, Failed) else
    if EffectOf(a).Open? then
      (Create(rows, project, Key(a), who).value, if fault.CommitUnknown? then Failed else Opened)
    else
      (Resolve(rows, found.value, who).value, if fault.CommitUnknown? then Failed else Resolved)
  }

  datatype Delivery = Delivery(rows: seq<Row>, opens: nat, closes: nat, ignores: nat, failed: bool)

  function Tallied(d: Delivery, rows: seq<Row>, v: Verdict): Delivery {
    match v
    case Opened => d.(rows := rows, opens := d.opens + 1)
    case Resolved => d.(rows := rows, closes := d.closes + 1)
    case Ignored => d.(rows := rows, ignores := d.ignores + 1)
    case Failed => d.(rows := rows, failed := true)
  }

  /** A whole payload; a store failure ends the delivery. */
  function Delivered(rows: seq<Row>, project: string, alerts: seq<Alert>, fault: nat -> Fault, who: int): Delivery {
    if alerts == [] then Delivery(rows, 0, 0, 0, false) else
    var n := |alerts| - 1;
    var d := Delivered(rows, project, alerts[..n], fault, who);
    if d.failed then d else
    var (after, v) := Handled(d.rows, project, alerts[n], fault(n), who);
    Tallied(d, after, v)
  }

  datatype Reply = Report(opens: nat, closes: nat, ignores: nat) | ServerError

  class Handler {
    var rows: seq<Row>

    constructor (initial: seq<Row>)
      ensures rows == initial
    {
      rows := initial;
    }

    method OpenExternalIncident(project: string, a: Alert, fault: Fault, who: int) returns (did: bool, err: bool)
      requires EffectOf(a).Open?
      modifies this
      ensures var (after, v) := Handled(old(rows), project, a, fault, who);
        rows == after && err == v.Failed? && (!err ==> did == v.Opened?) && (err ==> !did)
    {
      if fault.FindFails? { return false, true; }
      var found := FindOpen(rows, project, Key(a));
      if found.Some? { return false, false; }
      if fault.WriteFails? { return false, true; }
      var created := Create(rows, project, Key(a), who);
      if created.None? { return false, false; }
      rows := created.value;
      if fault.CommitUnknown? { return false, true; }
      return true, false;
    }

    method ResolveExternalIncident(project: string, a: Alert, fault: Fault, who: int) returns (did: bool, err: bool)
      requires EffectOf(a).Close?
      modifies this
      ensures var (after, v) := Handled(old(rows), project, a, fault, who);
        rows == after && err == v.Failed? && (!err ==> did == v.Resolved?) && (err ==> !did)
    {
      if fault.FindFails? { return false, true; }
      var found := FindOpen(rows, project, Key(a));
      if found.None? { return false, false; }
      if fault.WriteFails? { return false, true; }
      var resolved := Resolve(rows, found.value, who);
      if resolved.None? { return false, false; }
      rows := resolved.value;
      if fault.CommitUnknown? { return false, true; }
      return true, false;
    }

    method AlertmanagerWebhook(project: string, alerts: seq<Alert>, fault: nat -> Fault, who: int) returns (r: Reply)
      modifies this
      ensures var d := Delivered(old(rows), project, alerts, fault, who);
        rows == d.rows && r == if d.failed then ServerError else Report(d.opens, d.closes, d.ignores)
    {
      hide Handled;
      hide EffectOf;
      var opens, closes, ignores := 0, 0, 0;
      for i := 0 to |alerts|
        invariant Delivered(old(rows), project, alerts[..i], fault, who) ==
          Delivery(rows, opens, closes, ignores, false)
      {
        var a := alerts[i];
        assert alerts[..i + 1][..i] == alerts[..i];
        Unfinished(old(rows), project, alerts, fault, who, i + 1);
        VerdictOfEffect(rows, project, a, fault(i), who);
        ghost var step := Handled(rows, project, a, fault(i), who);
        assert Delivered(old(rows), project, alerts[..i + 1], fault, who) ==
          Tallied(Delivery(rows, opens, closes, ignores, false), step.0, step.1);
        match EffectOf(a) {
          case Skip =>
            SkipHandled(rows, project, a, fault(i), who);
            ignores := ignores + 1;
          case Close =>
            var did, err := ResolveExternalIncident(project, a, fault(i), who);
            if err { return ServerError; }
            if did { closes := closes + 1; } else { ignores := ignores + 1; }
          case Open =>
            var did, err := OpenExternalIncident(project, a, fault(i), who);
            if err { return ServerError; }
            if did { opens := opens + 1; } else { ignores := ignores + 1; }
        }
      }
      assert alerts[..|alerts|] == alerts;
      r := Report(opens, closes, ignores);
    }
  }

  lemma SkipHandled(rows: seq<Row>, project: string, a: Alert, fault: Fault, who: int)
    requires EffectOf(a).Skip?
    ensures Handled(rows, project, a, fault, who) == (rows, Ignored)
  {}

  /** Only a firing alert opens, only a resolved one closes. */
  lemma VerdictOfEffect(rows: seq<Row>, project: string, a: Alert, fault: Fault, who: int)
    ensures var (after, v) := Handled(rows, project, a, fault, who);
      (v.Opened? ==> EffectOf(a).Open?) && (v.Resolved? ==> EffectOf(a).Close?)
  {}

  /** A delivery that failed stays as it was. */
  lemma {:induction false} Unfinished(rows: seq<Row>, project: string, alerts: seq<Alert>, fault: nat -> Fault, who: int, n: nat)
    requires n <= |alerts|
    ensures Delivered(rows, project, alerts[..n], fault, who).failed ==>
      Delivered(rows, project, alerts, fault, who) == Delivered(rows, project, alerts[..n], fault, who)
  {
    if n == |alerts| {
      assert alerts[..n] == alerts;
    } else {
      Unfinished(rows, project, alerts[..|alerts| - 1], fault, who, n);
      assert alerts[..|alerts| - 1][..n] == alerts[..n];
    }
  }

  // ----- what a delivery does to the open keys

  /** What an alert should leave open. */
  ghost function Wanted(keys: set<string>, a: Alert): set<string> {
    match EffectOf(a)
    case Open => keys + {Key(a)}
    case Close => keys - {Key(a)}
    case Skip => keys
  }

  ghost function WantedAll(keys: set<string>, alerts: seq<Alert>): set<string> {
    if alerts == [] then keys else Wanted(WantedAll(keys, alerts[..|alerts| - 1]), alerts[|alerts| - 1])
  }

  /** One alert answered without a failure: the rows keep their invariant, other projects are untouched, the key is left
      as the alert wants it, and the verdict says whether that changed anything. */
  lemma HandledKeeps(rows: seq<Row>, project: string, a: Alert, fault: Fault, who: int, other: string)
    requires OneOpen(rows)
    ensures var (after, v) := Handled(rows, project, a, fault, who);
      && OneOpen(after)
      && (other != project ==> OpenKeys(after, other) == OpenKeys(rows, other))
      && (v != Failed ==> OpenKeys(after, project) == Wanted(OpenKeys(rows, project), a))
      && (v == Opened ==> |OpenKeys(after, project)| == |OpenKeys(rows, project)| + 1)
      && (v == Resolved ==> |OpenKeys(after, project)| == |OpenKeys(rows, project)| - 1)
      && (v == Ignored ==> after == rows)
  {
    hide FindOpen;
    hide OneOpen;
    hide OpenKeys;
    hide Lower;
    var key := Key(a);
    OpenKeyFound(rows, project, key);
    var found := FindOpen(rows, project, key);
    if !EffectOf(a).Skip? && found.Some? != EffectOf(a).Open? {
      if EffectOf(a).Open? {
        CreateKeeps(rows, project, key, who);
        CreateOpens(rows, project, key, who, project);
        CreateOpens(rows, project, key, who, other);
      } else {
        ResolveKeeps(rows, found.value, who);
        ResolveCloses(rows, found.value, who, project);
        ResolveCloses(rows, found.value, who, other);
      }
    }
  }

  /** A delivery that answers 200: every alert is counted once, the number of open keys moves by what was reported, the
      open keys are those the payload wants, and other projects are untouched. */
  lemma {:induction false} DeliveryCounts(rows: seq<Row>, project: string, alerts: seq<Alert>, fault: nat -> Fault, who: int,
      other: string)
    requires OneOpen(rows)
    ensures var d := Delivered(rows, project, alerts, fault, who);
      && OneOpen(d.rows)
      && (other != project ==> OpenKeys(d.rows, other) == OpenKeys(rows, other))
      && (!d.failed ==>
        && d.opens + d.closes + d.ignores == |alerts|
        && |OpenKeys(d.rows, project)| == |OpenKeys(rows, project)| + d.opens - d.closes
        && OpenKeys(d.rows, project) == WantedAll(OpenKeys(rows, project), alerts))
  {
    hide OneOpen;
    hide OpenKeys;
    hide Handled;
    hide Wanted;
    if alerts != [] {
      var n := |alerts| - 1;
      DeliveryCounts(rows, project, alerts[..n], fault, who, other);
      var d := Delivered(rows, project, alerts[..n], fault, who);
      HandledKeeps(d.rows, project, alerts[n], fault(n), who, other);
    }
  }

  /** The last alert with an effect on a key decides whether it ends open. */
  ghost function LastWord(alerts: seq<Alert>, key: string): Effect {
    if alerts == [] then Skip else
    var a := alerts[|alerts| - 1];
    if Key(a) == key && EffectOf(a) != Skip then EffectOf(a) else LastWord(alerts[..|alerts| - 1], key)
  }

  lemma {:induction false} LastWordDecides(keys: set<string>, alerts: seq<Alert>, key: string)
    ensures match LastWord(alerts, key)
      case Open => key in WantedAll(keys, alerts)
      case Close => key !in WantedAll(keys, alerts)
      case Skip => key in WantedAll(keys, alerts) <==> key in keys
  {
    hide EffectOf;
    if alerts != [] {
      LastWordDecides(keys, alerts[..|alerts| - 1], key);
    }
  }

  /** Sending a whole payload again leaves the open keys as they are, and opens as many as it closes. */
  lemma ReplayChangesNothing(rows: seq<Row>, project: string, alerts: seq<Alert>, fault: nat -> Fault, who: int,
      again: nat -> Fault, later: int)
    requires OneOpen(rows)
    ensures var first := Delivered(rows, project, alerts, fault, who);
      var second := Delivered(first.rows, project, alerts, again, later);
      !first.failed && !second.failed ==>
        OpenKeys(second.rows, project) == OpenKeys(first.rows, project) && second.opens == second.closes
  {
    hide OneOpen;
    hide OpenKeys;
    var first := Delivered(rows, project, alerts, fault, who);
    var second := Delivered(first.rows, project, alerts, again, later);
    DeliveryCounts(rows, project, alerts, fault, who, project);
    DeliveryCounts(first.rows, project, alerts, again, later, project);
    if !first.failed && !second.failed {
      forall key
        ensures key in OpenKeys(second.rows, project) <==> key in OpenKeys(first.rows, project)
      {
        LastWordDecides(OpenKeys(rows, project), alerts, key);
        LastWordDecides(OpenKeys(first.rows, project), alerts, key);
      }
      assert OpenKeys(second.rows, project) == OpenKeys(first.rows, project);
    }
  }

  // ----- the same in terms of the alert's own fields

  predicate Fires(a: Alert) {
    CaseOf(a.status, "firing") || a.status == ""
  }

  predicate Resolves(a: Alert) {
    CaseOf(a.status, "resolved")
  }

  /** The alert speaks of this key: by its fingerprint or, having none, by its alertname. */
  predicate Names(a: Alert, key: string) {
    key != "" && (a.fingerprint == key || (a.fingerprint == "" && a.alertname == key))
  }

  lemma NamesKey(a: Alert, key: string)
    ensures Names(a, key) <==> key != "" && Key(a) == key
  {}

  lemma EffectByFields(a: Alert)
    ensures EffectOf(a) == Open <==> (a.fingerprint != "" || a.alertname != "") && Fires(a)
    ensures EffectOf(a) == Close <==> (a.fingerprint != "" || a.alertname != "") && Resolves(a)
    ensures !(Fires(a) && Resolves(a))
  {
    hide EffectOf;
    EffectByStatus(a);
  }

  /** One alert and a working store: a firing alert leaves the keys it found and its fingerprint open, or its alertname when it has
      no fingerprint; a resolved one leaves them without it; any other leaves them as they are. It is counted as opened or resolved
      exactly when that was a change. */
  lemma HandledByFields(rows: seq<Row>, project: string, a: Alert, who: int, key: string)
    requires OneOpen(rows) && Names(a, key)
    ensures var (after, v) := Handled(rows, project, a, Works, who); var keys := OpenKeys(rows, project);
      && (Fires(a) ==> OpenKeys(after, project) == keys + {key} && v == if key in keys then Ignored else Opened)
      && (Resolves(a) ==> OpenKeys(after, project) == keys - {key} && v == if key in keys then Resolved else Ignored)
      && (!Fires(a) && !Resolves(a) ==> after == rows && v == Ignored)
  {
    hide FindOpen;
    hide OneOpen;
    hide OpenKeys;
    hide EffectOf;
    NamesKey(a, key);
    EffectByFields(a);
    OpenKeyFound(rows, project, key);
    HandledKeeps(rows, project, a, Works, who, project);
  }

  /** An alert fails exactly when a store call it needs fails. */
  lemma HandledFails(rows: seq<Row>, project: string, a: Alert, fault: Fault, who: int)
    ensures Handled(rows, project, a, fault, who).1 == Failed <==>
      (Handled(rows, project, a, Works, who).1 != Ignored && fault != Works) || (EffectOf(a) != Skip && fault == FindFails)
  {
    hide FindOpen;
    hide EffectOf;
  }

  /** With a working store no delivery fails. */
  lemma {:induction false} NoFaultNoFailure(rows: seq<Row>, project: string, alerts: seq<Alert>, fault: nat -> Fault, who: int)
    requires forall n :: fault(n) == Works
    ensures !Delivered(rows, project, alerts, fault, who).failed
  {
    hide FindOpen;
    hide EffectOf;
    if alerts != [] {
      NoFaultNoFailure(rows, project, alerts[..|alerts| - 1], fault, who);
    }
  }

  predicate Touches(a: Alert, key: string) {
    Names(a, key) && (Fires(a) || Resolves(a))
  }

  lemma {:induction false} LastTouch(alerts: seq<Alert>, key: string, i: nat)
    requires i < |alerts| && Touches(alerts[i], key) && forall j :: i < j < |alerts| ==> !Touches(alerts[j], key)
    ensures LastWord(alerts, key) == if Fires(alerts[i]) then Open else Close
  {
    hide EffectOf;
    hide CaseOf;
    var n := |alerts| - 1;
    NamesKey(alerts[n], key);
    EffectByFields(alerts[n]);
    if i < n {
      assert !Touches(alerts[n], key);
      LastTouch(alerts[..n], key, i);
    }
  }

  lemma {:induction false} NoTouch(alerts: seq<Alert>, key: string)
    requires key != "" && forall j :: 0 <= j < |alerts| ==> !Touches(alerts[j], key)
    ensures LastWord(alerts, key) == Skip
  {
    hide EffectOf;
    hide CaseOf;
    if alerts != [] {
      var n := |alerts| - 1;
      NamesKey(alerts[n], key);
      EffectByFields(alerts[n]);
      NoTouch(alerts[..n], key);
    }
  }

  /** After a delivery that answers 200 a key is open exactly as the last alert that speaks of it and fires or resolves says;
      with no such alert it is as before. */
  lemma DeliveryByFields(rows: seq<Row>, project: string, alerts: seq<Alert>, fault: nat -> Fault, who: int, key: string)
    requires OneOpen(rows) && key != "" && !Delivered(rows, project, alerts, fault, who).failed
    ensures var after := OpenKeys(Delivered(rows, project, alerts, fault, who).rows, project);
      && (forall i :: 0 <= i < |alerts| && Touches(alerts[i], key) && (forall j :: i < j < |alerts| ==> !Touches(alerts[j], key)) ==>
            (key in after <==> Fires(alerts[i])))
      && ((forall j :: 0 <= j < |alerts| ==> !Touches(alerts[j], key)) ==> (key in after <==> key in OpenKeys(rows, project)))
  {
    hide OneOpen;
    hide OpenKeys;
    hide Touches;
    hide Fires;
    hide Delivered;
    var keys := OpenKeys(rows, project);
    DeliveryCounts(rows, project, alerts, fault, who, project);
    LastWordDecides(keys, alerts, key);
    forall i | 0 <= i < |alerts| && Touches(alerts[i], key) && forall j :: i < j < |alerts| ==> !Touches(alerts[j], key)
      ensures LastWord(alerts, key) == if Fires(alerts[i]) then Open else Close
    {
      LastTouch(alerts, key, i);
    }
    if forall j :: 0 <= j < |alerts| ==> !Touches(alerts[j], key) {
      NoTouch(alerts, key);
    }
  }
}
