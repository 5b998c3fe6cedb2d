/** The local input check of the add form, made before any request is issued. */
module AddForm {
  import opened Wrappers
  import Text

  /** The platform chosen when the select box holds no value. */
  const DefaultPlatform: string := "eBay"

  const EmptyProductMessage: string := "Enter a product name"

  /** The payload `{action: "addProduct", product, platform}` posted to the backend. */
  datatype AddProduct = AddProduct(product: string, platform: string)

  /** The check at the start of `add`: the product name is trimmed and must not be empty; an
      empty platform selection falls back to the default. A failure carries the message shown
      to the user and means no request is sent. */
  function ValidateAdd(productValue: string, platformValue: string): (r: Result<AddProduct, string>)
    ensures r.Failure? <==> Text.AllWhitespace(productValue)
    ensures r.Failure? ==> r.error == EmptyProductMessage
    ensures r.Success? ==> r.value.product == Text.Trim(productValue) && r.value.product != []
    ensures r.Success? && platformValue != [] ==> r.value.platform == platformValue
    ensures r.Success? && platformValue == [] ==> r.value.platform == DefaultPlatform
  {
    var product := Text.Trim(productValue);
    var platform := if platformValue == [] then DefaultPlatform else platformValue;
    if product == [] then Failure(EmptyProductMessage)
    else Success(AddProduct(product, platform))
  }

  /** Surrounding whitespace does not change the request. */
  lemma ValidateIgnoresPadding(productValue: string, platformValue: string)
    requires ValidateAdd(productValue, platformValue).Success?
    ensures ValidateAdd(ValidateAdd(productValue, platformValue).value.product, platformValue)
            == ValidateAdd(productValue, platformValue)
  {
    Text.TrimIdempotent(productValue);
  }
}
