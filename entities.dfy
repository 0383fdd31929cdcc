/** The persisted records of the car-wash platform, one datatype per TypeORM entity,
    with the column defaults the entity declarations give. A relation column holds
    the id of the related row; whether that row is reachable is decided when the
    relation is resolved (see Store). Times are milliseconds since the epoch;
    money, coordinates and ratings are reals. */
module Entities {
  import opened Wrappers
  import opened Crypto

  /** Primary keys are auto-incremented integers. */
  type Id = nat

  /** UserRole. */
  datatype Role = RoleUser | RoleAdmin | RoleWasher

  /** The ten values of Booking.status. */
  datatype BookingStatus =
    | Pending | Assigned | Accepted | Declined | InProgress
    | Approve | Dispute | Paid | Completed | Cancelled

  /** Booking.paymentStatus, the booking's own view of its payment. */
  datatype BookingPayment = PayNone | Authorized | Captured | Refunded | PayFailed

  /** WasherResponse. */
  datatype WasherResponse = ResponseAccepted | ResponseDeclined

  /** The transaction module's PaymentStatus. */
  datatype TxStatus = TxPaid | TxNotPaid

  /** Washer.kycStatus. */
  datatype KycStatus = KycPending | KycApproved | KycRejected

  /** MssgStatus. */
  datatype MsgStatus = Read | Unread

  /** NotificationType. */
  datatype NotificationType =
    | TypeNewBooking | TypeBookingAccepted | TypeWasherArriving | TypeCompleted | TypePayment

  /** CarType. */
  datatype CarType = Sedan | Suv | Truck | Van | Coupe | Hatchback | Wagon | Convertible

  datatype User = User(
    name: string,
    email: string,
    role: Role,
    password: PasswordHash,
    profilePictureUrl: Option<string>,
    profilePicturePublicId: Option<string>,
    isVerified: bool,
    phoneNumber: Option<string>,
    address: Option<string>,
    accountNumber: Option<string>,
    accountName: Option<string>,
    emailVerificationToken: Option<string>,
    emailVerificationTokenExpires: Option<int>,
    passwordResetToken: Option<string>,
    passwordResetExpires: Option<int>,
    passwordChangedAt: Option<int>)

  /** A washer profile, one per user. averageRating and totalReviews are the
      aggregate the review service maintains. */
  datatype Washer = Washer(
    user: Id,
    kycStatus: KycStatus,
    idPhotoUrl: Option<string>,
    latitude: Option<real>,
    longitude: Option<real>,
    isAvailable: bool,
    averageRating: real,
    totalReviews: nat)

  /** A service on a washer's menu; the washer relation may be null. */
  datatype ServiceMenu = ServiceMenu(
    washer: Option<Id>,
    name: string,
    price: real,
    description: Option<string>,
    isActive: bool)

  datatype Car = Car(
    user: Id,
    make: string,
    model: string,
    color: string,
    plateNumber: string,
    carType: CarType,
    pictureUrl: Option<string>,
    picturePublicId: Option<string>)

  datatype Booking = Booking(
    user: Id,
    car: Id,
    service: Id,
    scheduledTime: string,
    latitude: real,
    longitude: real,
    status: BookingStatus,
    paymentStatus: BookingPayment,
    paymentReference: Option<string>,
    washerResponse: Option<WasherResponse>)

  datatype Transaction = Transaction(
    transactionReference: Option<string>,
    paymentLink: Option<string>,
    transactionStatus: Option<string>,
    status: TxStatus,
    transactionDate: Option<string>,
    amount: Option<real>,
    serviceId: Id)

  datatype Review = Review(
    user: Id,
    booking: Id,
    washer: Id,
    rating: int,
    comment: Option<string>)

  datatype Notification = Notification(
    user: Id,
    title: string,
    message: string,
    status: MsgStatus,
    kind: NotificationType)

  /** A washer profile as first saved: the column defaults (kycStatus pending,
      available, no coordinates, no reviews yet). */
  function NewWasher(user: Id, idPhotoUrl: Option<string>): Washer {
    Washer(user, KycPending, idPhotoUrl, None, None, true, 0.0, 0)
  }

  /** A notification row as first saved: UNREAD, and of the default type
      NEW_BOOKING, whatever type the caller asked for. */
  function NewNotification(user: Id, title: string, message: string): Notification {
    Notification(user, title, message, Unread, TypeNewBooking)
  }
}
