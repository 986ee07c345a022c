/** The rows of the hosted database tables the route handlers read and write, the
    status enumerations (shared/enums/status.ts), and the HTTP reply a handler returns. */
module Schema {
  import opened Wrappers
  import opened Envelope

  type UserId = nat

  /** Product ids arrive in request bodies and query strings as text. */
  type ProductId = string

  /** CartStatus: a cart is `active` until checkout turns it `converted`. */
  datatype CartStatus = Active | Converted

  /** OrderStatus, in lifecycle order. */
  datatype OrderStatus = Pending | Paid | Shipped | Delivered | Completed | Cancelled

  /** The text value each order status has in the database and on the wire. */
  function OrderStatusText(s: OrderStatus): string {
    match s
    case Pending => "pending"
    case Paid => "paid"
    case Shipped => "shipped"
    case Delivered => "delivered"
    case Completed => "completed"
    case Cancelled => "cancelled"
  }

  /** A `users` row; the password is kept only as its hash. */
  datatype User = User(name: string, username: string, email: Option<string>, passwordHash: string)

  /** A `carts` row; its id is its position in the table. */
  datatype Cart = Cart(owner: UserId, status: CartStatus)

  /** A `cart_items` row: a quantity of one product in one cart. The price is not stored. */
  datatype CartItem = CartItem(cartId: nat, productId: ProductId, quantity: int)

  /** A `products` row (prices in cents). */
  datatype Product = Product(name: string, price: int)

  /** A `shipment_methods` row. */
  datatype ShipmentMethod = ShipmentMethod(code: string, fee: int)

  /** An `orders` row; its id is its position in the table. */
  datatype Order = Order(
    userId: UserId,
    contactInfo: string,
    recipientName: string,
    country: string,
    address: string,
    city: string,
    state: string,
    postalCode: string,
    phoneNo: Option<string>,
    shipmentMethodId: nat,
    deliveryFeeSnapshot: int,
    paymentMethod: string,
    subtotalAmount: int,
    totalAmount: int,
    status: OrderStatus,
    code: string,
    creationDate: int,
    createdBy: UserId)

  /** An `order_items` row: a line of an order, with the product name and price
      copied at checkout time. */
  datatype OrderItem = OrderItem(
    orderId: nat, productId: ProductId, productName: string,
    quantity: int, priceSnapshot: int, createdBy: UserId)

  /** A `promotions` row; its id is its position in the table. */
  datatype Promotion = Promotion(
    code: string, promotionType: string, value: Option<int>,
    startsAt: Option<string>, expiresAt: Option<string>,
    createdBy: UserId, description: Option<string>, isActive: Option<bool>)

  /** A `promotion_usages` row: the user has redeemed the promotion. */
  datatype PromotionUsage = PromotionUsage(promotionId: nat, userId: UserId)

  // ---------------------------------------------------------------- replies

  /** One product line of the cart view returned by GET /api/cart. */
  datatype CartLine = CartLine(id: ProductId, name: string, quantity: int, price: int)

  /** An order of GET /api/orders with `shipment_method` set from the joined method. */
  datatype OrderView = OrderView(id: nat, order: Order, shipmentMethod: string)

  /** The `data` a handler puts in its envelope. */
  datatype Payload =
    | Created(id: nat)
    | CartContents(cartId: nat, products: seq<CartLine>)
    | Orders(orders: seq<OrderView>)
    | ValidPromotion(promotionId: nat, code: string, promotionType: string,
                     value: Option<int>, description: Option<string>)
    | PromotionRow(rowId: nat, promotion: Promotion)
    | AdminOrderRow(orderId: nat, order: Order)

  /** The JSON body of a reply: a plain envelope or a paginated one. */
  datatype Body =
    | Json(response: ApiResponse<Option<Payload>>)
    | PagedJson(page: PaginatedResponse<Payload>)

  /** `NextResponse.json(body, { status })`. */
  datatype Reply = Reply(status: int, body: Body)

  /** An error reply: `generateErrorResponse(message)` with the given status. */
  function Failure(status: int, message: string): (r: Reply)
    ensures r.status == status && r.body.Json? && !r.body.response.success
    ensures r.body.response.data == None && r.body.response.message == message
  {
    Reply(status, Json(ErrorResponse(message)))
  }

  /** A success reply: `generateSuccessResponse(data, message)` with the given status. */
  function Success(status: int, data: Option<Payload>, message: string): (r: Reply)
    ensures r.status == status && r.body.Json? && r.body.response.success
    ensures r.body.response.data == data && r.body.response.message == message
  {
    Reply(status, Json(SuccessResponse(data, message)))
  }
}

/** The hosted relational store, reduced to the tables the core reads and writes. */
module Db {
  import opened Schema

  class Store {
    var users: seq<User>
    var carts: seq<Cart>
    var cartItems: seq<CartItem>
    var products: map<ProductId, Product>
    var shipmentMethods: map<nat, ShipmentMethod>
    var orders: seq<Order>
    var orderItems: seq<OrderItem>
    var promotions: seq<Promotion>
    var promotionUsages: seq<PromotionUsage>

    /** A store holding only the catalog and the shipment methods. */
    constructor (catalog: map<ProductId, Product>, methods: map<nat, ShipmentMethod>)
      ensures products == catalog && shipmentMethods == methods
      ensures users == [] && carts == [] && cartItems == []
      ensures orders == [] && orderItems == [] && promotions == [] && promotionUsages == []
    {
      products, shipmentMethods := catalog, methods;
      users, carts, cartItems := [], [], [];
      orders, orderItems, promotions, promotionUsages := [], [], [], [];
    }
  }
}
