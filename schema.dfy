/** The relational store the handlers query, as in-memory tables.

    Every table with an AUTO_INCREMENT key is a map from that key to the row,
    and has a counter that gives the next key; every name -> id reference
    table (`user_roles`, `target_types`, the status tables, ...) is a map from
    the `name` column to the id column. Timestamps are integers handed in by
    the caller as `now` (the store's NOW()). */
module Schema {
  import opened Common

  datatype User = User(
    name: string,
    email: string,
    passwordHash: string,
    phone: Option<string>,
    churchId: Option<int>,
    roleId: Option<int>,
    birthday: Option<string>,
    ordinationDate: Option<string>,
    feastDate: Option<string>,
    motto: Option<string>,
    isActive: bool,
    createdAt: int)

  datatype Church = Church(name: string, foraneId: Option<int>)

  datatype Forane = Forane(name: string, dioceseId: Option<int>)

  datatype Notification = Notification(
    senderId: int,
    targetTypeId: int,
    targetId: Option<int>,
    message: string,
    createdAt: int)

  /** A row of `notification_recipients`; its key is (notification_id, user_id). */
  datatype Recipient = Recipient(statusId: int, attemptCount: nat, lastAttemptAt: Option<int>)

  datatype Booking = Booking(
    serviceId: int,
    parishionerId: int,
    churchId: int,
    priestId: Option<int>,
    amountPaise: int,
    statusId: int,
    createdBy: int,
    createdAt: int)

  datatype Transaction = Transaction(
    bookingId: Option<int>,
    churchId: int,
    amountPaise: int,
    methodId: int,
    statusId: int,
    razorpayOrderId: Option<string>,
    razorpayPaymentId: Option<string>,
    gatewayResponse: Option<string>,
    proofUrl: Option<string>,
    recordedBy: Option<int>,
    recordedAt: int,
    createdAt: int)

  datatype Service = Service(
    name: string,
    description: Option<string>,
    amountPaise: int,
    churchId: int,
    createdAt: int)

  /** A row of `split_config`: one beneficiary's percentage of a service. */
  datatype Split = Split(serviceId: int, beneficiaryTypeId: int, percentage: int)

  datatype Complaint = Complaint(
    userId: int,
    bookingId: Option<int>,
    title: string,
    body: string,
    statusId: int,
    createdAt: int)

  datatype Event = Event(
    entityTypeId: int,
    entityId: int,
    title: string,
    description: Option<string>,
    startTime: int,
    endTime: int,
    visibilityId: int,
    createdBy: int)

  /** The user -> church -> forane -> diocese hierarchy, read-only for the
      notification fan-out. */
  datatype Directory = Directory(
    users: map<int, User>,
    churches: map<int, Church>,
    foranes: map<int, Forane>,
    roles: map<string, int>)

  class Db {
    // name -> id reference tables
    var userRoles: map<string, int>
    var targetTypes: map<string, int>
    var deliveryStatuses: map<string, int>
    var transactionStatuses: map<string, int>
    var bookingStatuses: map<string, int>
    var complaintStatuses: map<string, int>
    var beneficiaryTypes: map<string, int>
    var entityTypes: map<string, int>
    var eventVisibility: map<string, int>

    // the organisation hierarchy
    var users: map<int, User>
    var churches: map<int, Church>
    var foranes: map<int, Forane>

    // the tables the handlers write
    var notifications: map<int, Notification>
    var recipients: map<(int, int), Recipient>
    var bookings: map<int, Booking>
    var transactions: map<int, Transaction>
    var services: map<int, Service>
    var splits: map<int, Split>
    var complaints: map<int, Complaint>
    var events: map<int, Event>

    // AUTO_INCREMENT counters: the key the next insert receives
    var nextUserId: int
    var nextNotificationId: int
    var nextBookingId: int
    var nextTransactionId: int
    var nextServiceId: int
    var nextSplitId: int
    var nextComplaintId: int
    var nextEventId: int

    /** Every key lies below its table's counter, so an insert never
        overwrites a row; recipient rows belong to notifications already
        issued. */
    ghost predicate Valid()
      reads this
    {
      && (forall k :: k in users ==> k < nextUserId)
      && (forall k :: k in notifications ==> k < nextNotificationId)
      && (forall k :: k in recipients ==> k.0 < nextNotificationId)
      && (forall k :: k in bookings ==> k < nextBookingId)
      && (forall k :: k in transactions ==> k < nextTransactionId)
      && (forall k :: k in services ==> k < nextServiceId)
      && (forall k :: k in splits ==> k < nextSplitId)
      && (forall k :: k in complaints ==> k < nextComplaintId)
      && (forall k :: k in events ==> k < nextEventId)
    }

    function Hierarchy(): Directory
      reads this
    {
      Directory(users, churches, foranes, userRoles)
    }

    /** An empty store over the given reference tables. */
    constructor (roles: map<string, int>, targets: map<string, int>, delivery: map<string, int>,
                 txStatuses: map<string, int>, bookingSt: map<string, int>, complaintSt: map<string, int>,
                 beneficiaries: map<string, int>, entities: map<string, int>, visibility: map<string, int>)
      ensures Valid()
      ensures userRoles == roles && targetTypes == targets && deliveryStatuses == delivery
      ensures transactionStatuses == txStatuses && bookingStatuses == bookingSt
      ensures complaintStatuses == complaintSt && beneficiaryTypes == beneficiaries
      ensures entityTypes == entities && eventVisibility == visibility
      ensures users == map[] && churches == map[] && foranes == map[]
      ensures notifications == map[] && recipients == map[] && bookings == map[] && transactions == map[]
      ensures services == map[] && splits == map[] && complaints == map[] && events == map[]
    {
      userRoles, targetTypes, deliveryStatuses := roles, targets, delivery;
      transactionStatuses, bookingStatuses, complaintStatuses := txStatuses, bookingSt, complaintSt;
      beneficiaryTypes, entityTypes, eventVisibility := beneficiaries, entities, visibility;
      users, churches, foranes := map[], map[], map[];
      notifications, recipients := map[], map[];
      bookings, transactions, services, splits := map[], map[], map[], map[];
      complaints, events := map[], map[];
      nextUserId, nextNotificationId, nextBookingId, nextTransactionId := 1, 1, 1, 1;
      nextServiceId, nextSplitId, nextComplaintId, nextEventId := 1, 1, 1, 1;
    }
  }
}
