/**
 * `create_mailto_link` of app.py: the manual notification link shown in the
 * job details dialog. Percent-encoding (`urllib.parse.quote` as `urlencode`
 * calls it, with no safe characters) is a parameter; the only facts the model
 * uses about it are stated in `PercentEncoding`.
 */
module Mailto {
  import opened Wrappers
  import opened Records

  function AssignmentSubject(job: Job): string {
    "Assignment: " + job.title
  }

  function AssignmentBody(job: Job, tech: Tech, loc: Location): string {
    "Hello " + tech.name + ",\n\nNew Assignment:\n" + job.title + " (" + PriorityName(job.priority) + ")\n\n"
    + "Location:\n" + loc.name + "\n" + loc.address + "\n\nDetails:\n" + job.description + "\n"
  }

  /**
   * `f"mailto:{tech['email']}?{urlencode({'subject': ..., 'body': ...}, quote_via=quote)}"`.
   * The link addresses the technician and carries the encoded subject and
   * body, provided the address itself holds no '?'.
   */
  function MailtoLink(job: Job, tech: Tech, loc: Location, quote: string -> string): (link: string)
    ensures PercentEncoding(quote) && '?' !in tech.email ==>
              ParseMailto(link) == Some((tech.email, quote(AssignmentSubject(job)), quote(AssignmentBody(job, tech, loc))))
  {
    var link := "mailto:" + tech.email + "?" + Query(quote, AssignmentSubject(job), AssignmentBody(job, tech, loc));
    assert PercentEncoding(quote) && '?' !in tech.email ==>
             ParseMailto(link) == Some((tech.email, quote(AssignmentSubject(job)), quote(AssignmentBody(job, tech, loc)))) by {
      if PercentEncoding(quote) && '?' !in tech.email {
        LinkRoundTrip(tech.email, quote, AssignmentSubject(job), AssignmentBody(job, tech, loc));
      }
    }
    link
  }

  /** `urlencode({'subject': subject, 'body': body}, quote_via=quote)` */
  function Query(quote: string -> string, subject: string, body: string): string {
    quote("subject") + "=" + quote(subject) + "&" + quote("body") + "=" + quote(body)
  }

  /** What percent-encoding guarantees: the delimiters of a query string never appear in its output, and plain words pass unchanged. */
  ghost predicate PercentEncoding(quote: string -> string) {
    && (forall s :: '&' !in quote(s) && '=' !in quote(s) && '?' !in quote(s))
    && quote("subject") == "subject"
    && quote("body") == "body"
  }

  /** `s.partition(c)` without the separator: the text before the first `c` and the text after it. */
  function SplitAt(s: string, c: char): (parts: (string, string))
    ensures c !in s ==> parts == (s, "")
  {
    if s == [] then ("", "")
    else if s[0] == c then ("", s[1..])
    else
      var rest := SplitAt(s[1..], c);
      assert s == [s[0]] + s[1..];
      ([s[0]] + rest.0, rest.1)
  }

  lemma {:induction false} SplitAtFirst(a: string, c: char, b: string)
    requires c !in a
    ensures SplitAt(a + [c] + b, c) == (a, b)
  {
    var s := a + [c] + b;
    if a == [] {
      assert s == [c] + b;
      assert s[0] == c && s[1..] == b;
    } else {
      assert s[0] == a[0] && a[0] != c;
      assert s[1..] == a[1..] + [c] + b;
      SplitAtFirst(a[1..], c, b);
      assert a == [a[0]] + a[1..];
    }
  }

  /** Reads a mailto link back into its recipient and its encoded subject and body. */
  function ParseMailto(link: string): Option<(string, string, string)> {
    if |link| < 7 || link[..7] != "mailto:" then None
    else
      var (recipient, query) := SplitAt(link[7..], '?');
      var (first, second) := SplitAt(query, '&');
      var (k1, subject) := SplitAt(first, '=');
      var (k2, body) := SplitAt(second, '=');
      if k1 == "subject" && k2 == "body" then Some((recipient, subject, body)) else None
  }

  /** The query string splits back into its two encoded values. */
  lemma QueryRoundTrip(quote: string -> string, subject: string, body: string)
    requires PercentEncoding(quote)
    ensures var (first, second) := SplitAt(Query(quote, subject, body), '&');
            SplitAt(first, '=') == ("subject", quote(subject)) && SplitAt(second, '=') == ("body", quote(body))
  {
    var qs, qb := quote(subject), quote(body);
    assert '&' !in qs && '=' !in qs && '=' !in qb;
    var left, right := "subject" + ['='] + qs, "body" + ['='] + qb;
    assert Query(quote, subject, body) == left + ['&'] + right;
    SplitAtFirst(left, '&', right);
    SplitAtFirst("subject", '=', qs);
    SplitAtFirst("body", '=', qb);
  }

  /** A link built from a '?'-free recipient and a query reads back into the recipient and the two encoded values. */
  lemma LinkRoundTrip(recipient: string, quote: string -> string, subject: string, body: string)
    requires PercentEncoding(quote)
    requires '?' !in recipient
    ensures ParseMailto("mailto:" + recipient + "?" + Query(quote, subject, body))
            == Some((recipient, quote(subject), quote(body)))
  {
    var query := Query(quote, subject, body);
    var link := "mailto:" + recipient + "?" + query;
    assert link == "mailto:" + (recipient + ['?'] + query);
    assert link[..7] == "mailto:" && link[7..] == recipient + ['?'] + query;
    SplitAtFirst(recipient, '?', query);
    QueryRoundTrip(quote, subject, body);
  }
}
