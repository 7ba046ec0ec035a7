/**
 * The server-side prescription check: the request gate, the case-insensitive
 * name match over the recognised text, the upload, the bearer-token user id,
 * the approved/rejected record and the response codes. The text recognition
 * service, the storage bucket and the table are replies passed in.
 */
module VerifyPrescription {
  import opened Common
  import Cart
  import Prescription

  /** The posted form; None stands for a body that is not form data. */
  datatype Form = Form(hasFile: bool, productName: Option<string>)

  datatype Request = Request(httpMethod: string, form: Option<Form>, authorization: Option<string>)

  /** The recognition service: a failed call, or the first annotation's description (absent or text). */
  datatype OcrReply = OcrFailed | Described(description: Option<string>)

  /**
   * The replies of the other calls: whether the upload and the insert
   * succeed, the path's random part and the public URL of the stored file.
   */
  datatype Replies = Replies(ocr: OcrReply, uploadOk: bool, recordOk: bool, uuid: string, publicUrl: string)

  datatype Body = CorsOnly | ErrorBody(error: string) | MatchBody(matched: bool, message: string)

  datatype Response = Response(status: int, body: Body)

  datatype Record = Record(userId: string, fileUrl: string, medicineName: string, status: string)

  /** The response together with the files and rows the request left behind. */
  datatype Outcome = Outcome(response: Response, uploads: seq<string>, records: seq<Record>)

  const Separator := "Bearer "
  const MissingInput := "Missing file or product name"
  const NoTextMessage := "No text could be detected in the prescription image. Please ensure the image is clear and contains readable text."
  const ProcessingError := "Failed to process prescription image"
  const RequestError := "Failed to verify prescription"
  const NotAuthenticated := "User not authenticated"
  const MatchedMessage := "Prescription verified successfully"
  const MismatchMessage := "The medicine name in the prescription does not match the selected medicine. Please verify and try again."

  // ---------------------------------------------------------------------
  // The user id from the Authorization header
  // ---------------------------------------------------------------------

  /** The first position at which `sub` occurs in `s`. */
  function IndexOf(s: string, sub: string): (r: Option<nat>)
    ensures r.Some? ==> OccursAt(s, sub, r.value) && forall j :: 0 <= j < r.value ==> !OccursAt(s, sub, j)
    ensures r.None? ==> forall j :: !OccursAt(s, sub, j)
    decreases |s|
  {
    if IsPrefix(sub, s) then
      assert s[0..|sub|] == sub;
      Some(0)
    else if |s| == 0 then None
    else
      var rest := IndexOf(s[1..], sub);
      assert forall j :: 0 < j ==> (OccursAt(s, sub, j) <==> OccursAt(s[1..], sub, j - 1)) by {
        forall j | 0 < j ensures OccursAt(s, sub, j) <==> OccursAt(s[1..], sub, j - 1) {
          if j + |sub| <= |s| {
            assert s[1..][j - 1..j - 1 + |sub|] == s[j..j + |sub|];
          }
        }
      }
      if rest.Some? then Some(rest.value + 1) else None
  }

  /**
   * `header.split("Bearer ")[1]`: the text between the first occurrence of
   * the separator and the next one (or the end); None when the header is
   * absent or has no separator.
   */
  function BearerToken(header: Option<string>): (r: Option<string>)
    ensures header.None? ==> r.None?
    ensures header.Some? ==> (r.None? <==> forall j :: !OccursAt(header.value, Separator, j))
    ensures r.Some? ==> forall j :: !OccursAt(r.value, Separator, j)
  {
    if header.None? then None
    else
      var h := header.value;
      var first := IndexOf(h, Separator);
      if first.None? then None
      else
        var rest := h[first.value + |Separator|..];
        var next := IndexOf(rest, Separator);
        if next.None? then Some(rest)
        else
          var token := rest[..next.value];
          assert forall j :: !OccursAt(token, Separator, j) by {
            forall j | OccursAt(token, Separator, j) ensures false {
              assert rest[j..j + |Separator|] == token[j..j + |Separator|];
              assert OccursAt(rest, Separator, j);
            }
          }
          Some(token)
  }

  /** The header form of section 2.1 of RFC 6750 gives back the token, whatever precedes the separator. */
  lemma {:induction false} BearerHeaderGivesToken(prefix: string, token: string)
    requires forall j :: !OccursAt(prefix + Separator, Separator, j) || j == |prefix|
    requires forall j :: !OccursAt(token, Separator, j)
    ensures BearerToken(Some(prefix + Separator + token)) == Some(token)
  {
    var h := prefix + Separator + token;
    assert h[|prefix|..|prefix| + |Separator|] == Separator;
    assert OccursAt(h, Separator, |prefix|);
    var first := IndexOf(h, Separator);
    assert first == Some(|prefix|) by {
      forall j | 0 <= j < |prefix| ensures !OccursAt(h, Separator, j) {
        if OccursAt(h, Separator, j) {
          assert h[j..j + |Separator|] == (prefix + Separator)[j..j + |Separator|];
          assert OccursAt(prefix + Separator, Separator, j);
        }
      }
    }
    assert h[|prefix| + |Separator|..] == token;
  }

  /** The plain RFC 6750 header `Bearer <token>`. */
  lemma PlainBearerHeader(token: string)
    requires forall j :: !OccursAt(token, Separator, j)
    ensures BearerToken(Some(Separator + token)) == Some(token)
  {
    assert forall j :: !OccursAt("" + Separator, Separator, j) || j == 0 by {
      forall j | OccursAt("" + Separator, Separator, j) ensures j == 0 {
      }
    }
    assert "" + Separator + token == Separator + token;
    BearerHeaderGivesToken("", token);
  }

  // ---------------------------------------------------------------------
  // The handler
  // ---------------------------------------------------------------------

  /** `extractedText.toLowerCase().includes(productName.toLowerCase())`. */
  predicate Matches(text: string, productName: string) {
    Contains(Lower(text), Lower(productName))
  }

  /** A request past the preflight and input checks: a form with a file and a non-empty product name. */
  predicate Admitted(req: Request) {
    req.httpMethod != "OPTIONS" && req.form.Some? && req.form.value.hasFile && Truthy(req.form.value.productName)
  }

  /** An admitted request whose recognised text is non-empty and whose upload succeeded. */
  predicate ReachesUpload(req: Request, rep: Replies) {
    Admitted(req) && rep.ocr.Described? && Truthy(rep.ocr.description) && rep.uploadOk
  }

  /** The request handler; `uploads` and `records` are the bucket and the table before the call. */
  function Handle(req: Request, rep: Replies, uploads: seq<string>, records: seq<Record>): (o: Outcome)
    ensures req.httpMethod == "OPTIONS" ==> o == Outcome(Response(200, CorsOnly), uploads, records)
    ensures req.httpMethod != "OPTIONS" && req.form.None? ==> o == Outcome(Response(500, ErrorBody(RequestError)), uploads, records)
    ensures (req.httpMethod != "OPTIONS" && req.form.Some? && (!req.form.value.hasFile || !Truthy(req.form.value.productName)) ==>
      o == Outcome(Response(400, ErrorBody(MissingInput)), uploads, records))
    ensures o.uploads == uploads || o.uploads == uploads + ["prescriptions/" + rep.uuid]
    ensures o.records == records || (|o.records| == |records| + 1 && o.records[..|records|] == records)
    ensures |o.records| > |records| ==> o.uploads == uploads + ["prescriptions/" + rep.uuid]
    ensures o.response.status == 401 ==> o.uploads == uploads + ["prescriptions/" + rep.uuid] && o.records == records
    ensures o.response.status != 200 ==> o.records == records
    ensures (|o.records| > |records| ==>
      req.httpMethod != "OPTIONS" && req.form.Some? && req.form.value.hasFile && Truthy(req.form.value.productName) &&
      rep.ocr.Described? && Truthy(rep.ocr.description) && Truthy(BearerToken(req.authorization)) &&
      var name := req.form.value.productName.value;
      var matched := Matches(rep.ocr.description.value, name);
      var rec := o.records[|records|];
      rec.userId == BearerToken(req.authorization).value && rec.fileUrl == rep.publicUrl && rec.medicineName == name &&
      (rec.status == "approved" <==> matched) && (rec.status == "rejected" <==> !matched) &&
      o.response == Response(200, MatchBody(matched, if matched then MatchedMessage else MismatchMessage)))
    ensures o.response.body.MatchBody? && o.response.body.matched ==> |o.records| == |records| + 1
    ensures Admitted(req) && rep.ocr.Described? && Truthy(rep.ocr.description) && !rep.uploadOk ==>
      o == Outcome(Response(500, ErrorBody(ProcessingError)), uploads, records)
    ensures ReachesUpload(req, rep) && !Truthy(BearerToken(req.authorization)) ==>
      o == Outcome(Response(401, ErrorBody(NotAuthenticated)), uploads + ["prescriptions/" + rep.uuid], records)
    ensures ReachesUpload(req, rep) && Truthy(BearerToken(req.authorization)) && !rep.recordOk ==>
      o == Outcome(Response(500, ErrorBody(ProcessingError)), uploads + ["prescriptions/" + rep.uuid], records)
    ensures ReachesUpload(req, rep) && Truthy(BearerToken(req.authorization)) && rep.recordOk ==>
      |o.records| == |records| + 1 && o.response.status == 200
  {
    if req.httpMethod == "OPTIONS" then Outcome(Response(200, CorsOnly), uploads, records)
    else if req.form.None? then Outcome(Response(500, ErrorBody(RequestError)), uploads, records)
    else
      var form := req.form.value;
      if !form.hasFile || !Truthy(form.productName) then Outcome(Response(400, ErrorBody(MissingInput)), uploads, records)
      else
        var name := form.productName.value;
        match rep.ocr
        case OcrFailed => Outcome(Response(500, ErrorBody(ProcessingError)), uploads, records)
        case Described(description) =>
          if !Truthy(description) then Outcome(Response(200, MatchBody(false, NoTextMessage)), uploads, records)
          else
            var matched := Matches(description.value, name);
            var path := "prescriptions/" + rep.uuid;
            if !rep.uploadOk then Outcome(Response(500, ErrorBody(ProcessingError)), uploads, records)
            else
              var stored := uploads + [path];
              var user := BearerToken(req.authorization);
              if !Truthy(user) then Outcome(Response(401, ErrorBody(NotAuthenticated)), stored, records)
              else if !rep.recordOk then Outcome(Response(500, ErrorBody(ProcessingError)), stored, records)
              else
                var rec := Record(user.value, rep.publicUrl, name, if matched then "approved" else "rejected");
                assert (records + [rec])[..|records|] == records;
                Outcome(Response(200, MatchBody(matched, if matched then MatchedMessage else MismatchMessage)),
                        stored, records + [rec])
  }

  /** Without detected text nothing is stored and the answer is "not matched". */
  lemma NoTextStoresNothing(req: Request, rep: Replies, uploads: seq<string>, records: seq<Record>)
    requires req.httpMethod != "OPTIONS" && req.form.Some? && req.form.value.hasFile && Truthy(req.form.value.productName)
    requires rep.ocr.Described? && !Truthy(rep.ocr.description)
    ensures Handle(req, rep, uploads, records) == Outcome(Response(200, MatchBody(false, NoTextMessage)), uploads, records)
  {
  }

  /** A failed recognition call is a server error that stores nothing. */
  lemma OcrFailureIsServerError(req: Request, rep: Replies, uploads: seq<string>, records: seq<Record>)
    requires req.httpMethod != "OPTIONS" && req.form.Some? && req.form.value.hasFile && Truthy(req.form.value.productName)
    requires rep.ocr.OcrFailed?
    ensures Handle(req, rep, uploads, records) == Outcome(Response(500, ErrorBody(ProcessingError)), uploads, records)
  {
  }

  /**
   * A request without a bearer token is refused only after the file has been
   * stored: the upload stays behind with no record pointing at it.
   */
  lemma MissingTokenLeavesUpload(req: Request, rep: Replies, uploads: seq<string>, records: seq<Record>)
    requires req.httpMethod != "OPTIONS" && req.form.Some? && req.form.value.hasFile && Truthy(req.form.value.productName)
    requires rep.ocr.Described? && Truthy(rep.ocr.description) && rep.uploadOk
    requires req.authorization.None?
    ensures Handle(req, rep, uploads, records) ==
      Outcome(Response(401, ErrorBody(NotAuthenticated)), uploads + ["prescriptions/" + rep.uuid], records)
  {
  }

  /** The match ignores case on both sides. */
  lemma MatchIgnoresCase(text: string, name: string)
    ensures Matches(Lower(text), name) == Matches(text, name)
    ensures Matches(text, Lower(name)) == Matches(text, name)
  {
    LowerIdempotent(text);
    LowerIdempotent(name);
  }

  /**
   * The server and the prescription page name a passing check differently:
   * the server writes "approved" and never "verified", the page "verified"
   * and never "approved"; both write "rejected" for a failing one.
   */
  lemma StatusVocabulariesDiffer(req: Request, rep: Replies, uploads: seq<string>, records: seq<Record>,
                                 s: Prescription.PageState, user: Option<Id>, preq: Prescription.Requested,
                                 prep: Prescription.Replies, stamp: string, freshId: Id, puploads: seq<string>,
                                 precords: seq<Prescription.PrescriptionRecord>, cart: seq<Cart.CartRow>)
    ensures var o := Handle(req, rep, uploads, records);
      |o.records| > |records| ==> o.records[|records|].status in {"approved", "rejected"}
    ensures var r := Prescription.Submit(s, user, preq, prep, stamp, freshId, puploads, precords, cart);
      |r.records| > |precords| ==> r.records[|precords|].status in {"verified", "rejected"}
  {
  }
}
