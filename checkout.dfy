/**
 * app/checkout/page.tsx: the delivery form's validation and error
 * bookkeeping, the amounts sent to the payment gateway, and the customer
 * object handed to the payment flow.
 */
module Checkout {
  import opened Wrappers
  import opened Text
  import opened Orders
  import opened CartPage
  import opened SaveOrder

  /** The form's six text fields. */
  datatype FormData = FormData(
    name: string,
    phone: string,
    address: string,
    postalCode: string,
    deliveryDate: string,
    timeWindow: string)

  const NAME_REQUIRED: string := "Name is required"
  const PHONE_INVALID: string := "Please enter a valid 10-digit phone number"
  const ADDRESS_REQUIRED: string := "Address is required"
  const DATE_IN_PAST: string := "Please select a future date"

  /** `/^\d{10}$/`: exactly ten ASCII digits. */
  predicate ValidPhone(phone: string) {
    |phone| == 10 && AllDigits(phone)
  }

  /**
   * The date check: only a non-empty, valid date before today's midnight is
   * refused (an invalid date compares false with anything, so it passes).
   */
  predicate DateInPast(form: FormData, parsed: ParsedDate, todayMidnightMs: int) {
    form.deliveryDate != "" && parsed.AtMs? && parsed.ms < todayMidnightMs
  }

  predicate FormValid(form: FormData, parsed: ParsedDate, todayMidnightMs: int) {
    Trim(form.name) != "" && ValidPhone(form.phone) && Trim(form.address) != ""
    && !DateInPast(form, parsed, todayMidnightMs)
  }

  /**
   * `validateForm`: fills the error object field by field; the form is
   * accepted exactly when no entry was produced.
   */
  method ValidateForm(form: FormData, parsed: ParsedDate, todayMidnightMs: int)
    returns (errors: map<string, string>, ok: bool)
    ensures ("name" in errors <==> Trim(form.name) == "") && ("name" in errors ==> errors["name"] == NAME_REQUIRED)
    ensures ("phone" in errors <==> !ValidPhone(form.phone)) && ("phone" in errors ==> errors["phone"] == PHONE_INVALID)
    ensures ("address" in errors <==> Trim(form.address) == "") && ("address" in errors ==> errors["address"] == ADDRESS_REQUIRED)
    ensures ("deliveryDate" in errors <==> DateInPast(form, parsed, todayMidnightMs))
      && ("deliveryDate" in errors ==> errors["deliveryDate"] == DATE_IN_PAST)
    ensures errors.Keys <= {"name", "phone", "address", "deliveryDate"}
    ensures ok <==> |errors| == 0
    ensures ok <==> FormValid(form, parsed, todayMidnightMs)
  {
    var nameBlank, phoneBad, addressBlank := Trim(form.name) == "", !ValidPhone(form.phone), Trim(form.address) == "";
    var datePast := DateInPast(form, parsed, todayMidnightMs);
    errors := map[];
    if nameBlank {
      errors := errors["name" := NAME_REQUIRED];
    }
    if phoneBad {
      errors := errors["phone" := PHONE_INVALID];
    }
    if addressBlank {
      errors := errors["address" := ADDRESS_REQUIRED];
    }
    if form.deliveryDate != "" {
      if parsed.AtMs? && parsed.ms < todayMidnightMs {
        errors := errors["deliveryDate" := DATE_IN_PAST];
      }
    }
    ok := |errors| == 0;
    if nameBlank {
      assert "name" in errors;
    } else if phoneBad {
      assert "phone" in errors;
    } else if addressBlank {
      assert "address" in errors;
    } else if datePast {
      assert "deliveryDate" in errors;
    } else {
      assert errors == map[];
    }
  }

  /** The form after `setFormData(prev => ({ ...prev, [name]: value }))` for one of its fields. */
  function WithField(form: FormData, field: string, value: string): (r: FormData)
    ensures field == "name" ==> r == form.(name := value)
    ensures field == "phone" ==> r == form.(phone := value)
    ensures field == "address" ==> r == form.(address := value)
    ensures field == "postalCode" ==> r == form.(postalCode := value)
    ensures field == "deliveryDate" ==> r == form.(deliveryDate := value)
    ensures field == "timeWindow" ==> r == form.(timeWindow := value)
    ensures field !in {"name", "phone", "address", "postalCode", "deliveryDate", "timeWindow"} ==> r == form
  {
    match field
    case "name" => form.(name := value)
    case "phone" => form.(phone := value)
    case "address" => form.(address := value)
    case "postalCode" => form.(postalCode := value)
    case "deliveryDate" => form.(deliveryDate := value)
    case "timeWindow" => form.(timeWindow := value)
    case _ => form
  }

  /** The error clearing in `handleInputChange`: a present, non-empty entry for the edited field goes; nothing else changes. */
  method ClearError(errors: map<string, string>, field: string) returns (updated: map<string, string>)
    ensures field in errors && errors[field] != "" ==> field !in updated
    ensures !(field in errors && errors[field] != "") ==> updated == errors
    ensures forall k :: k != field ==> (k in updated <==> k in errors)
    ensures forall k :: k in updated ==> updated[k] == errors[k]
  {
    updated := errors;
    if field in errors && errors[field] != "" {
      updated := updated - {field};
    }
  }

  /** Subtotal, tax, total and the amount in paise sent to `/api/create-order`. */
  function CheckoutAmounts(cart: seq<CartItem>): (a: (int, int, int, int))
    ensures (a.0, a.1, a.2) == CartTotals(cart)
    ensures a.3 == 100 * (Subtotal(cart) + RoundedTax(Subtotal(cart)))
  {
    var t := CartTotals(cart);
    (t.0, t.1, t.2, t.2 * 100)
  }

  /** The customer object: the three required fields as typed, empty optional fields as absent. */
  function CustomerOf(form: FormData): (c: Customer)
    ensures c.name == Some(form.name) && c.phone == Some(form.phone) && c.address == Some(form.address)
    ensures c.postalCode.None? <==> form.postalCode == ""
    ensures c.deliveryDate.None? <==> form.deliveryDate == ""
    ensures c.timeWindow.None? <==> form.timeWindow == ""
  {
    Customer(Some(form.name), Some(form.phone), Some(form.address),
             if form.postalCode == "" then None else Some(form.postalCode),
             if form.deliveryDate == "" then None else Some(form.deliveryDate),
             if form.timeWindow == "" then None else Some(form.timeWindow))
  }

  /**
   * A form the page accepts passes the save-order route's customer check,
   * and the stored delivery keeps exactly the optional fields that were
   * filled in.
   */
  lemma AcceptedFormIsComplete(form: FormData, parsed: ParsedDate, todayMidnightMs: int)
    requires FormValid(form, parsed, todayMidnightMs)
    ensures var c := CustomerOf(form);
      && Truthy(c.name) && Truthy(c.phone) && Truthy(c.address)
      && DeliveryOf(c) == Delivery(form.name, form.phone, form.address,
           if form.postalCode == "" then None else Some(form.postalCode),
           if form.deliveryDate == "" then None else Some(form.deliveryDate),
           if form.timeWindow == "" then None else Some(form.timeWindow))
  {
  }
}
