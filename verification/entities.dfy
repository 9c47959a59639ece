/** The records the storefront's pages share. */
module Entities {
  import opened Wrappers

  /** The role string that unlocks the admin pages. */
  const AdminRole := "admin"

  /** The signed-in user as the client holds it. `id` is the server's `_id`; the record that
      `login` builds has none. An absent `username`, `role` or `email` is modelled as "",
      which behaves the same under every test the client applies (truthiness, `=== "admin"`). */
  datatype UserRecord = UserRecord(id: Option<string>, username: string, role: string, email: string)

  /** `user?.role === "admin"`. */
  predicate IsAdmin(user: Option<UserRecord>) {
    user.Some? && user.value.role == AdminRole
  }

  /** The populated `order.user`: its `_id` and `email` ("" when absent). */
  datatype Owner = Owner(id: Option<string>, email: string)

  /** An order as the order endpoints return it. `paidAt` is "" when absent. */
  datatype Order = Order(
    id: string,
    owner: Option<Owner>,
    status: string,
    payment: string,
    subTotal: real,
    paidAt: string,
    address: string,
    phone: string,
    itemCount: nat)

  /** A saved delivery address. */
  datatype Address = Address(id: string, address: string, phone: string)
}
