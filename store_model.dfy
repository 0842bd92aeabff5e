/** The store record of the storefront and the admin form that edits one
    (`Partial<Store>` in the page component). */
module StoreModel {
  import opened Wrappers

  /** A latitude or longitude, carried as the decimal text JavaScript writes for
      the number; the model never computes with coordinates. */
  type CoordText = string

  /** One physical store. The optional properties of the record are `Option`s,
      `None` standing for a property the object does not have. */
  datatype Store = Store(
    id: int,
    name: string,
    slug: string,
    address: string,
    city: string,
    state: string,
    pincode: string,
    phone: string,
    email: string,
    lat: CoordText,
    lng: CoordText,
    tags: seq<string>,
    workingHours: Option<string>,
    openedDate: Option<string>,
    placeId: Option<string>,
    photos: Option<seq<string>>)

  /** The admin form's data: every property may be absent. */
  datatype Form = Form(
    id: Option<int>,
    name: Option<string>,
    slug: Option<string>,
    address: Option<string>,
    city: Option<string>,
    state: Option<string>,
    pincode: Option<string>,
    phone: Option<string>,
    email: Option<string>,
    lat: Option<CoordText>,
    lng: Option<CoordText>,
    tags: Option<seq<string>>,
    workingHours: Option<string>,
    openedDate: Option<string>,
    placeId: Option<string>,
    photos: Option<seq<string>>)

  /** The form inputs that `handleInputChange` writes by their `name` attribute. */
  datatype TextField =
    | NameField | SlugField | AddressField | CityField | StateField | PincodeField
    | PhoneField | EmailField | LatField | LngField | WorkingHoursField
    | OpenedDateField | PlaceIdField

  const DefaultState: string := "Karnataka"
  const DefaultWorkingHours: string := "10 AM to 10 PM"

  /** JavaScript's `v || fallback` on an optional string: both a missing value
      and the empty string fall back. */
  function OrElse(v: Option<string>, fallback: string): (r: string)
    ensures v.Some? && v.value != "" ==> r == v.value
    ensures v.None? || v.value == "" ==> r == fallback
  {
    if v.Some? && v.value != "" then v.value else fallback
  }

  /** The form as the page starts it and as a submit resets it. */
  function BlankForm(): Form {
    Form(None, Some(""), Some(""), Some(""), Some(""), Some(DefaultState), Some(""),
         Some(""), Some(""), Some("0"), Some("0"), Some([]), Some(DefaultWorkingHours),
         Some(""), Some(""), Some([]))
  }

  /** The form as the Cancel button resets it: the same fields as BlankForm
      except that `photos` is not set. */
  function CancelledForm(): (f: Form)
    ensures f == BlankForm().(photos := None)
  {
    Form(None, Some(""), Some(""), Some(""), Some(""), Some(DefaultState), Some(""),
         Some(""), Some(""), Some("0"), Some("0"), Some([]), Some(DefaultWorkingHours),
         Some(""), Some(""), None)
  }

  /** `setFormData(store)`: the form holds exactly the store's properties. */
  function FormOf(s: Store): Form {
    Form(Some(s.id), Some(s.name), Some(s.slug), Some(s.address), Some(s.city), Some(s.state),
         Some(s.pincode), Some(s.phone), Some(s.email), Some(s.lat), Some(s.lng), Some(s.tags),
         s.workingHours, s.openedDate, s.placeId, s.photos)
  }

  /** `{ ...s, ...f }`: every property the form has overrides the store's. */
  function Merge(s: Store, f: Form): Store {
    Store(f.id.GetOr(s.id), f.name.GetOr(s.name), f.slug.GetOr(s.slug),
          f.address.GetOr(s.address), f.city.GetOr(s.city), f.state.GetOr(s.state),
          f.pincode.GetOr(s.pincode), f.phone.GetOr(s.phone), f.email.GetOr(s.email),
          f.lat.GetOr(s.lat), f.lng.GetOr(s.lng), f.tags.GetOr(s.tags),
          if f.workingHours.Some? then f.workingHours else s.workingHours,
          if f.openedDate.Some? then f.openedDate else s.openedDate,
          if f.placeId.Some? then f.placeId else s.placeId,
          if f.photos.Some? then f.photos else s.photos)
  }

  /** `{ ...prev, [name]: value }` for one text input. */
  function SetField(f: Form, field: TextField, value: string): Form {
    match field
    case NameField => f.(name := Some(value))
    case SlugField => f.(slug := Some(value))
    case AddressField => f.(address := Some(value))
    case CityField => f.(city := Some(value))
    case StateField => f.(state := Some(value))
    case PincodeField => f.(pincode := Some(value))
    case PhoneField => f.(phone := Some(value))
    case EmailField => f.(email := Some(value))
    case LatField => f.(lat := Some(value))
    case LngField => f.(lng := Some(value))
    case WorkingHoursField => f.(workingHours := Some(value))
    case OpenedDateField => f.(openedDate := Some(value))
    case PlaceIdField => f.(placeId := Some(value))
  }

  /** The text a store holds for one input field (absent optional text as None). */
  function FieldText(s: Store, field: TextField): Option<string> {
    match field
    case NameField => Some(s.name)
    case SlugField => Some(s.slug)
    case AddressField => Some(s.address)
    case CityField => Some(s.city)
    case StateField => Some(s.state)
    case PincodeField => Some(s.pincode)
    case PhoneField => Some(s.phone)
    case EmailField => Some(s.email)
    case LatField => Some(s.lat)
    case LngField => Some(s.lng)
    case WorkingHoursField => s.workingHours
    case OpenedDateField => s.openedDate
    case PlaceIdField => s.placeId
  }

  /** Opening a store for editing and submitting the untouched form gives the
      store back unchanged. */
  lemma MergeFormOf(s: Store)
    ensures Merge(s, FormOf(s)) == s
  {
  }

  /** Editing one input of a store's form and submitting changes that field to
      the typed text and nothing else: not the id, the tags or the photos. */
  lemma MergeAfterInput(s: Store, field: TextField, value: string)
    ensures var m := Merge(s, SetField(FormOf(s), field, value));
      && FieldText(m, field) == Some(value)
      && (forall g: TextField :: g != field ==> FieldText(m, g) == FieldText(s, g))
      && m.id == s.id && m.tags == s.tags && m.photos == s.photos
  {
  }
}
