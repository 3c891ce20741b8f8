/**
 * The contact-history appenders of the current back end: a secondary or
 * newsletter email or phone is added to a record's list only when it is
 * non-empty after normalization and not already listed, and every addition
 * is logged with one audit row.
 */
module Contacts {
  import opened Records
  import opened Normalize

  /** Which of the four lists an appender writes to. */
  datatype ContactKind = SecondaryEmail | SecondaryPhone | NewsletterEmail | NewsletterPhone {

    predicate IsEmail() {
      this == SecondaryEmail || this == NewsletterEmail
    }

    /** The `type` written in the audit row. */
    function Tag(): string {
      match this
      case SecondaryEmail => "email"
      case SecondaryPhone => "phone"
      case NewsletterEmail => "newsletter_email"
      case NewsletterPhone => "newsletter_phone"
    }

    /** The normalizer the appender applies: the email one or the phone one. */
    function Normal(s: string): string {
      if IsEmail() then NormalizeEmail(s) else NormalizePhone(s)
    }
  }

  lemma TagsDistinct(a: ContactKind, b: ContactKind)
    ensures a.Tag() == b.Tag() <==> a == b
  {
  }

  lemma NormalIdempotent(k: ContactKind, s: string)
    ensures k.Normal(k.Normal(s)) == k.Normal(s)
  {
    if k.IsEmail() {
      NormalizeEmailIdempotent(s);
    } else {
      NormalizePhoneIdempotent(s);
    }
  }

  function ListOf(h: ContactHistory, k: ContactKind): seq<string> {
    match k
    case SecondaryEmail => h.secondaryEmails
    case SecondaryPhone => h.secondaryPhones
    case NewsletterEmail => h.newsletterEmails
    case NewsletterPhone => h.newsletterPhones
  }

  function WithList(h: ContactHistory, k: ContactKind, xs: seq<string>): (r: ContactHistory)
    ensures ListOf(r, k) == xs && r.updates == h.updates
    ensures forall k2 :: k2 != k ==> ListOf(r, k2) == ListOf(h, k2)
  {
    match k
    case SecondaryEmail => h.(secondaryEmails := xs)
    case SecondaryPhone => h.(secondaryPhones := xs)
    case NewsletterEmail => h.(newsletterEmails := xs)
    case NewsletterPhone => h.(newsletterPhones := xs)
  }

  /** `add_contact_update`: one audit row, stamped with the time of the call. */
  function LogUpdate(h: ContactHistory, tag: string, value: string, visitNumber: int, visitDatetime: string, now: string): (r: ContactHistory)
    ensures r.updates == h.updates + [ContactUpdate(tag, value, now, Int(visitNumber), visitDatetime)]
    ensures forall k :: ListOf(r, k) == ListOf(h, k)
  {
    h.(updates := h.updates + [ContactUpdate(tag, value, now, Int(visitNumber), visitDatetime)])
  }

  /** The normalized forms of a list, as the appenders compare against them (`existing`). */
  function NormalizedList(k: ContactKind, xs: seq<string>): (r: seq<string>)
    ensures |r| == |xs| && forall i :: 0 <= i < |xs| ==> r[i] == k.Normal(xs[i])
  {
    seq(|xs|, i requires 0 <= i < |xs| => k.Normal(xs[i]))
  }

  /** True when some entry of the list normalizes to `v`. */
  predicate Listed(k: ContactKind, xs: seq<string>, v: string) {
    exists i :: 0 <= i < |xs| && k.Normal(xs[i]) == v
  }

  /**
   * `add_secondary_email`, `add_secondary_phone`, `add_newsletter_email` and
   * `add_newsletter_phone`: the flag says whether the value was added.
   */
  function AddContact(h: ContactHistory, k: ContactKind, raw: string, visitNumber: int, visitDatetime: string, now: string): (r: (bool, ContactHistory))
    ensures var v := k.Normal(raw);
      r.0 <==> v != "" && !Listed(k, ListOf(h, k), v)
    ensures !r.0 ==> r.1 == h
    ensures r.0 ==>
      && ListOf(r.1, k) == ListOf(h, k) + [k.Normal(raw)]
      && (forall k2 :: k2 != k ==> ListOf(r.1, k2) == ListOf(h, k2))
      && r.1.updates == h.updates + [ContactUpdate(k.Tag(), k.Normal(raw), now, Int(visitNumber), visitDatetime)]
  {
    var v := k.Normal(raw);
    if v == "" then (false, h)
    else
      var existing := NormalizedList(k, ListOf(h, k));
      if v in existing then (false, h)
      else
        var h1 := WithList(h, k, ListOf(h, k) + [v]);
        (true, LogUpdate(h1, k.Tag(), v, visitNumber, visitDatetime, now))
  }

  /** A list the appenders keep: every entry non-empty and normalized, no entry twice. */
  predicate ListOk(k: ContactKind, xs: seq<string>) {
    && (forall i :: 0 <= i < |xs| ==> xs[i] != "" && k.Normal(xs[i]) == xs[i])
    && (forall i, j :: 0 <= i < j < |xs| ==> xs[i] != xs[j])
  }

  /** Every value listed under `k` has an audit row of that kind. */
  predicate AuditedKind(h: ContactHistory, k: ContactKind) {
    forall i :: 0 <= i < |ListOf(h, k)| ==>
      exists u :: u in h.updates && u.kind == k.Tag() && u.value == ListOf(h, k)[i]
  }

  /** Every listed value has an audit row of its kind. */
  predicate Audited(h: ContactHistory) {
    forall k :: AuditedKind(h, k)
  }

  /** The invariant of a contact history built only by the appenders. */
  predicate HistoryOk(h: ContactHistory) {
    (forall k :: ListOk(k, ListOf(h, k))) && Audited(h)
  }

  lemma EmptyHistoryOk()
    ensures HistoryOk(EmptyHistory)
  {
  }

  /** Appending a normalized, non-empty value not yet listed keeps a list well formed. */
  lemma AppendKeepsListOk(k: ContactKind, xs: seq<string>, v: string)
    requires ListOk(k, xs) && v != "" && k.Normal(v) == v && !Listed(k, xs, v)
    ensures ListOk(k, xs + [v])
  {
    var ys := xs + [v];
    forall i, j | 0 <= i < j < |ys|
      ensures ys[i] != ys[j]
    {
      if j == |xs| {
        assert k.Normal(xs[i]) == xs[i];
      }
    }
  }

  /** Logging the added value keeps every listed value audited. */
  lemma AppendKeepsAudited(h: ContactHistory, h2: ContactHistory, k: ContactKind, u: ContactUpdate)
    requires Audited(h)
    requires ListOf(h2, k) == ListOf(h, k) + [u.value] && u.kind == k.Tag()
    requires forall k2 :: k2 != k ==> ListOf(h2, k2) == ListOf(h, k2)
    requires h2.updates == h.updates + [u]
    ensures Audited(h2)
  {
    forall k2 ensures AuditedKind(h2, k2) {
      AppendKeepsAuditedKind(h, h2, k, k2, u);
    }
  }

  lemma AppendKeepsAuditedKind(h: ContactHistory, h2: ContactHistory, k: ContactKind, k2: ContactKind, u: ContactUpdate)
    requires AuditedKind(h, k2)
    requires ListOf(h2, k) == ListOf(h, k) + [u.value] && u.kind == k.Tag()
    requires k2 != k ==> ListOf(h2, k2) == ListOf(h, k2)
    requires h2.updates == h.updates + [u]
    ensures AuditedKind(h2, k2)
  {
    var xs := ListOf(h, k2);
    var ys := ListOf(h2, k2);
    forall i | 0 <= i < |ys|
      ensures exists w :: w in h2.updates && w.kind == k2.Tag() && w.value == ys[i]
    {
      if k2 == k && i == |xs| {
        assert u in h2.updates && u.kind == k2.Tag() && u.value == ys[i];
      } else {
        assert i < |xs| && ys[i] == xs[i];
        var w :| w in h.updates && w.kind == k2.Tag() && w.value == xs[i];
        assert w in h2.updates;
      }
    }
  }

  /** The appenders preserve the invariant. */
  lemma AddContactKeepsHistoryOk(h: ContactHistory, k: ContactKind, raw: string, visitNumber: int, visitDatetime: string, now: string)
    ensures HistoryOk(h) ==> HistoryOk(AddContact(h, k, raw, visitNumber, visitDatetime, now).1)
  {
    var r := AddContact(h, k, raw, visitNumber, visitDatetime, now);
    if r.0 && HistoryOk(h) {
      var v := k.Normal(raw);
      NormalIdempotent(k, raw);
      AppendKeepsListOk(k, ListOf(h, k), v);
      AppendKeepsAudited(h, r.1, k, ContactUpdate(k.Tag(), v, now, Int(visitNumber), visitDatetime));
      forall k2 ensures ListOk(k2, ListOf(r.1, k2)) {
        if k2 != k {
          assert ListOf(r.1, k2) == ListOf(h, k2);
        }
      }
    }
  }

  /** Adding the same value again is refused and changes nothing. */
  lemma AddContactTwice(h: ContactHistory, k: ContactKind, raw: string, raw2: string, n: int, n2: int, dt: string, dt2: string, now: string, now2: string)
    requires k.Normal(raw2) == k.Normal(raw)
    ensures var h1 := AddContact(h, k, raw, n, dt, now).1;
      AddContact(h1, k, raw2, n2, dt2, now2) == (false, h1)
  {
    var r := AddContact(h, k, raw, n, dt, now);
    if r.0 {
      NormalIdempotent(k, raw);
      var i := |ListOf(h, k)|;
      assert k.Normal(ListOf(r.1, k)[i]) == k.Normal(raw2);
    }
  }
}
