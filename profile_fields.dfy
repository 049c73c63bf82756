/** The keys of a business profile dict that the analysis reads. */
module ProfileFields {

  /** A profile field; `Key` is its key in the profile dict. */
  datatype Field = Title | Type | Description | PhoneNumber | WebsiteUrl | Address | BusinessHours | Photos {
    function Key(): string {
      match this
      case Title => "title"
      case Type => "type"
      case Description => "description"
      case PhoneNumber => "phoneNumber"
      case WebsiteUrl => "websiteUrl"
      case Address => "address"
      case BusinessHours => "businessHours"
      case Photos => "photos"
    }
  }
}
