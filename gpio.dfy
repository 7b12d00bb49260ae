/** Logical levels of a GPIO line, as the gpiod library reports and drives them. */
module Gpio {
  datatype Level = Active | Inactive
}
