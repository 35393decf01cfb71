/**
 * A loaded manifest document and the extraction of its `epoch`,
 * `issuanceDate` and `scope` fields (run.py, the `try` block after
 * `json.load`).
 */
module Manifest {
  import opened Wrappers
  import opened Timestamps

  /** What `json.load` returns. Numbers are kept as integers (see README). */
  datatype Json =
    | JNull
    | JBool(b: bool)
    | JNumber(n: int)
    | JString(s: string)
    | JArray(items: seq<Json>)
    | JObject(fields: map<string, Json>)

  /** Why an entry is passed over, the scan going on with the next entry. */
  datatype SkipReason =
    | NotManifest     // suffix is not ".json" or the stem is not an integer
    | Unloadable      // OSError or JSONDecodeError while loading
    | MissingField    // KeyError on 'epoch', 'issuanceDate' or 'scope'
    | BadDate         // ValueError from parse_timestamp
    | ScopeNotString  // isinstance(scope, str) fails
    | AlreadySeen     // (scope, ts0) is already indexed

  /** An exception nothing in `run` catches: it ends the cycle and the process. */
  datatype AbortReason =
    | NotAnObject        // TypeError: the manifest is not a JSON object
    | DateNotString      // TypeError: strptime is given a non-string date
    | Undecodable        // UnicodeDecodeError from `json.load`: a ValueError line 109 does not catch
    | IssuanceMismatch   // AssertionError: issuance milliseconds differ from the stem
    | ArchiveUnreadable  // the companion .zip cannot be opened or extracted
    | NoExtractionDirectory  // FileNotFoundError from `iterdir`: extraction created no directory

  /** What opening a `.json` entry and `json.load` on it give. */
  datatype Load =
    | Loaded(doc: Json)
    | LoadError   // OSError or JSONDecodeError: logged and skipped
    | NotText     // the bytes do not decode as text: UnicodeDecodeError

  datatype FieldsResult =
    | Read(epoch: int, issued: int, scope: string)
    | Skipped(skip: SkipReason)
    | Failed(failure: AbortReason)

  /** `doc[key]` is present, is a string, and one of the two date formats accepts it. */
  predicate HasDate(doc: Json, key: string, fmt: Formats) {
    doc.JObject? && key in doc.fields && doc.fields[key].JString?
    && ParseTimestamp(fmt, doc.fields[key].s).Some?
  }

  /** A manifest the scan can index: both dates parse and the scope is a string. */
  predicate ValidManifest(doc: Json, fmt: Formats) {
    && HasDate(doc, "epoch", fmt)
    && HasDate(doc, "issuanceDate", fmt)
    && "scope" in doc.fields && doc.fields["scope"].JString?
  }

  /**
   * Reads `epoch`, `issuanceDate` and `scope` in the order the source does:
   * each key lookup may raise KeyError (silent skip), each date may raise
   * ValueError (logged skip) or, not being a string, TypeError (uncaught).
   */
  function ReadFields(doc: Json, fmt: Formats): (r: FieldsResult)
    ensures r.Read? <==> ValidManifest(doc, fmt)
    ensures r.Read? ==>
      && ParseTimestamp(fmt, doc.fields["epoch"].s) == Some(r.epoch)
      && ParseTimestamp(fmt, doc.fields["issuanceDate"].s) == Some(r.issued)
      && doc.fields["scope"] == JString(r.scope)
    ensures r == Failed(NotAnObject) <==> !doc.JObject?
    ensures r.Failed? ==> r.failure == NotAnObject || r.failure == DateNotString
    ensures r.Skipped? ==> r.skip == MissingField || r.skip == BadDate || r.skip == ScopeNotString
    ensures doc.JObject? && "epoch" !in doc.fields ==> r == Skipped(MissingField)
  {
    if !doc.JObject? then Failed(NotAnObject)
    else
      var f := doc.fields;
      if "epoch" !in f then Skipped(MissingField)
      else if !f["epoch"].JString? then Failed(DateNotString)
      else match ParseTimestamp(fmt, f["epoch"].s)
        case None => Skipped(BadDate)
        case Some(epoch) =>
          if "issuanceDate" !in f then Skipped(MissingField)
          else if !f["issuanceDate"].JString? then Failed(DateNotString)
          else match ParseTimestamp(fmt, f["issuanceDate"].s)
            case None => Skipped(BadDate)
            case Some(issued) =>
              if "scope" !in f then Skipped(MissingField)
              else if !f["scope"].JString? then Skipped(ScopeNotString)
              else Read(epoch, issued, f["scope"].s)
  }

  /**
   * Which invalid manifests are skipped and which raise, branch by branch
   * in the order lines 114-128 look at the fields: a date that is present
   * but not a string raises before anything later is read.
   */
  lemma ReadFieldsBranches(doc: Json, fmt: Formats)
    ensures doc.JObject? && "epoch" in doc.fields && !doc.fields["epoch"].JString? ==> ReadFields(doc, fmt) == Failed(DateNotString)
    ensures doc.JObject? && "epoch" in doc.fields && doc.fields["epoch"].JString? && !HasDate(doc, "epoch", fmt)
      ==> ReadFields(doc, fmt) == Skipped(BadDate)
    ensures HasDate(doc, "epoch", fmt) && "issuanceDate" !in doc.fields ==> ReadFields(doc, fmt) == Skipped(MissingField)
    ensures HasDate(doc, "epoch", fmt) && "issuanceDate" in doc.fields && !doc.fields["issuanceDate"].JString?
      ==> ReadFields(doc, fmt) == Failed(DateNotString)
    ensures HasDate(doc, "epoch", fmt) && "issuanceDate" in doc.fields && doc.fields["issuanceDate"].JString?
      && !HasDate(doc, "issuanceDate", fmt)
      ==> ReadFields(doc, fmt) == Skipped(BadDate)
    ensures HasDate(doc, "epoch", fmt) && HasDate(doc, "issuanceDate", fmt) && "scope" !in doc.fields
      ==> ReadFields(doc, fmt) == Skipped(MissingField)
    ensures HasDate(doc, "epoch", fmt) && HasDate(doc, "issuanceDate", fmt) && "scope" in doc.fields
      && !doc.fields["scope"].JString?
      ==> ReadFields(doc, fmt) == Skipped(ScopeNotString)
  {
  }
}
