/** The listing page (`Index`): the form's values and errors, the two flags that drive
    the submit button and the overlay, the current route, and the submit flow that
    validates, inserts one row into the `listings` table and then either navigates to
    the thank-you page or restores the form. */
module Submission {
  import opened Validation

  const HomeRoute := "/"
  const ThankYouRoute := "/thank-you"

  /** The column names of the row sent to the `listings` table. */
  const RowKeys: set<string> := {"name", "website", "about", "contact_number"}

  /** The object handed to `insert([...])`: the form's values, with the contact number
      stored under the snake-case key `contact_number`. */
  function InsertRow(f: FormValues): (row: map<string, string>)
    ensures row.Keys == RowKeys
    ensures row["name"] == f.name && row["website"] == f.website && row["about"] == f.about
    ensures row["contact_number"] == f.contactNumber
  {
    map["name" := f.name, "website" := f.website, "about" := f.about, "contact_number" := f.contactNumber]
  }

  /** Reads a row back into form values. */
  function RowValues(row: map<string, string>): (f: FormValues)
    requires RowKeys <= row.Keys
    ensures f.name == row["name"] && f.website == row["website"] && f.about == row["about"]
    ensures f.contactNumber == row["contact_number"]
  {
    FormValues(row["name"], row["website"], row["about"], row["contact_number"])
  }

  /** The row carries every value of the form and nothing else. */
  lemma RowRoundTrip(f: FormValues, row: map<string, string>)
    ensures RowValues(InsertRow(f)) == f
    ensures row.Keys == RowKeys ==> InsertRow(RowValues(row)) == row
  {
    if row.Keys == RowKeys {
      var back := InsertRow(RowValues(row));
      assert forall key | key in RowKeys :: back[key] == row[key];
    }
  }

  /** What the store answers to the insert request. */
  datatype InsertReply = Stored | StoreError

  /** One insert request the page sent, with the two flags as they stood when it was sent. */
  datatype InsertCall = InsertCall(row: map<string, string>, submitting: bool, overlay: bool)

  /** A request that carries a full row of values that passed validation, sent with the
      button disabled and the overlay up. */
  ghost predicate WellSent(c: InsertCall)
  {
    c.row.Keys == RowKeys && Accepted(RowValues(c.row)) && c.submitting && c.overlay
  }

  /** The state of one `Index` component. */
  class ListingForm {
    var values: FormValues
    var errors: FormErrors
    var isSubmitting: bool
    var showSuccess: bool
    var route: string
    /** Every insert request sent to the `listings` table, oldest first. */
    var inserts: seq<InsertCall>
    /** The number of error toasts shown. */
    var notifications: nat

    /** `disabled={isSubmitting}` on the submit button. */
    predicate SubmitDisabled()
      reads this
    {
      isSubmitting
    }

    /** `{showSuccess && <LoadingSequence />}`: the overlay is mounted while showSuccess holds. */
    predicate OverlayMounted()
      reads this
    {
      showSuccess
    }

    /** The two flags always move together, and every row ever sent came from values
        that passed validation and was sent with the button disabled and the overlay up. */
    ghost predicate Valid()
      reads this
    {
      && isSubmitting == showSuccess
      && forall i :: 0 <= i < |inserts| ==> WellSent(inserts[i])
    }

    /** The page as first rendered: empty inputs, no errors, both flags false. */
    constructor ()
      ensures Valid()
      ensures values == EmptyForm && errors == NoFieldErrors
      ensures !isSubmitting && !showSuccess && route == HomeRoute
      ensures inserts == [] && notifications == 0
    {
      values := EmptyForm;
      errors := NoFieldErrors;
      isSubmitting := false;
      showSuccess := false;
      route := HomeRoute;
      inserts := [];
      notifications := 0;
    }

    /** The user types into the inputs. */
    method Edit(f: FormValues)
      requires Valid()
      modifies this`values
      ensures Valid() && values == f
    {
      values := f;
    }

    /** `onSubmit(data)`: raise both flags, send the row, then on success wait out the
        overlay (one step here), reset the inputs and go to the thank-you page; on a store
        error show a toast and lower both flags, leaving the inputs and the route alone. */
    method OnSubmit(data: FormValues, reply: InsertReply)
      requires Valid() && Accepted(data)
      modifies this
      ensures Valid()
      ensures inserts == old(inserts) + [InsertCall(InsertRow(data), true, true)]
      ensures reply == StoreError ==>
        && !isSubmitting && !showSuccess
        && values == old(values) && errors == old(errors) && route == old(route)
        && notifications == old(notifications) + 1
      ensures reply == Stored ==>
        && isSubmitting && showSuccess
        && values == EmptyForm && errors == NoFieldErrors && route == ThankYouRoute
        && notifications == old(notifications)
    {
      isSubmitting := true;
      showSuccess := true;
      var row := InsertRow(data);
      RowRoundTrip(data, row);
      var call := InsertCall(row, isSubmitting, showSuccess);
      assert WellSent(call);
      inserts := inserts + [call];
      if reply == StoreError {
        notifications := notifications + 1;
        isSubmitting := false;
        showSuccess := false;
      } else {
        values := EmptyForm;
        errors := NoFieldErrors;
        route := ThankYouRoute;
      }
    }

    /** `handleSubmit(onSubmit)`: record every input's error; call the handler with the
        current values only when there is none. */
    method Submit(reply: InsertReply)
      requires Valid()
      modifies this
      ensures Valid()
      ensures !Accepted(old(values)) ==>
        && errors == Validate(old(values))
        && values == old(values) && route == old(route)
        && isSubmitting == old(isSubmitting) && showSuccess == old(showSuccess)
        && inserts == old(inserts) && notifications == old(notifications)
      ensures Accepted(old(values)) ==>
        inserts == old(inserts) + [InsertCall(InsertRow(old(values)), true, true)]
      ensures Accepted(old(values)) && reply == StoreError ==>
        && !SubmitDisabled() && !OverlayMounted()
        && values == old(values) && errors == NoFieldErrors && route == old(route)
        && notifications == old(notifications) + 1
      ensures Accepted(old(values)) && reply == Stored ==>
        && SubmitDisabled() && OverlayMounted()
        && values == EmptyForm && errors == NoFieldErrors && route == ThankYouRoute
        && notifications == old(notifications)
    {
      errors := Validate(values);
      if errors == NoFieldErrors {
        OnSubmit(values, reply);
      }
    }

    /** A press of the submit button (or Enter in an input): nothing happens while the
        button is disabled; otherwise the form is submitted. */
    method Press(reply: InsertReply)
      requires Valid()
      modifies this
      ensures Valid()
      ensures old(SubmitDisabled()) ==> unchanged(this)
      ensures !old(SubmitDisabled()) && !Accepted(old(values)) ==>
        && errors == Validate(old(values))
        && values == old(values) && route == old(route)
        && isSubmitting == old(isSubmitting) && showSuccess == old(showSuccess)
        && inserts == old(inserts) && notifications == old(notifications)
      ensures !old(SubmitDisabled()) && Accepted(old(values)) ==>
        inserts == old(inserts) + [InsertCall(InsertRow(old(values)), true, true)]
      ensures !old(SubmitDisabled()) && Accepted(old(values)) && reply == StoreError ==>
        && !SubmitDisabled() && !OverlayMounted()
        && values == old(values) && errors == NoFieldErrors && route == old(route)
        && notifications == old(notifications) + 1
      ensures !old(SubmitDisabled()) && Accepted(old(values)) && reply == Stored ==>
        && SubmitDisabled() && OverlayMounted()
        && values == EmptyForm && errors == NoFieldErrors && route == ThankYouRoute
        && notifications == old(notifications)
    {
      if !isSubmitting {
        Submit(reply);
      }
    }
  }

  /** Values that fail validation are never sent, whatever the store would answer. */
  method InvalidFormSendsNothing(f: FormValues, reply: InsertReply) returns (sent: nat, shown: FormErrors)
    requires !Accepted(f)
    ensures sent == 0
    ensures shown == Validate(f) && shown != NoFieldErrors
  {
    var page := new ListingForm();
    page.Edit(f);
    page.Press(reply);
    sent := |page.inserts|;
    shown := page.errors;
  }

  /** After a stored submission the button stays disabled, so a second press sends nothing. */
  method DoublePressSendsOnce(f: FormValues, second: InsertReply) returns (sent: nat, route: string)
    requires Accepted(f)
    ensures sent == 1 && route == ThankYouRoute
  {
    var page := new ListingForm();
    page.Edit(f);
    page.Press(Stored);
    page.Press(second);
    sent := |page.inserts|;
    route := page.route;
  }

  /** After a store error the values are kept and the button re-enabled, so pressing again
      sends the same row a second time and can still reach the thank-you page. */
  method RetryAfterStoreError(f: FormValues) returns (rows: seq<map<string, string>>, route: string)
    requires Accepted(f)
    ensures rows == [InsertRow(f), InsertRow(f)] && route == ThankYouRoute
  {
    var page := new ListingForm();
    page.Edit(f);
    page.Press(StoreError);
    page.Press(Stored);
    rows := [page.inserts[0].row, page.inserts[1].row];
    route := page.route;
  }
}
